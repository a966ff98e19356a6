// Executor: every thread that touches executions, interleaved at the executor's lock.
// A step is one locked section, or one call made between two of them; a step that is not enabled does nothing.

module Executor {
  import opened Wrappers
  import opened Jobs
  import opened Execution

  type ExecId = nat

  datatype Who = Scheduler | Thread(t: nat)
  datatype Owner = Owner(e: ExecId, pc: Pc)

  /** The scheduler thread between two scans, on its way to executor_spawn, inside it, or joined. */
  datatype Sched = Idle | Reserved(job: Id) | Admitted(job: Id) | Refused(job: Id) | Releasing(job: Id) | Busy | Stopped

  datatype State = State(
    active: seq<ExecId>,             // s_active, newest first
    execs: map<ExecId, Exec>,        // the allocated executions
    procs: map<ExecId, Proc>,        // the process of every execution ever registered
    owners: map<Who, Owner>,         // what each live thread is working on
    killers: multiset<ExecId>,       // requesters that copied a process id and have not signalled it yet
    sched: Sched,
    shutting: bool,                  // s_shutting_down
    held: set<Id>,                   // jobs with an active allocation record
    db: map<Id, Status>,
    seen: set<Id>,                   // job ids ever handed out
    next: nat)

  /** Changes of a row by request handlers and by the scheduler's periodic passes. */
  datatype RowOp = Submit(asCreated: bool) | ReleaseHeld | FailHeld | CancelRow | Retry | Purge | FailStale

  datatype Action =
    | Row(job: Id, op: RowOp)
    | Pick(job: Id) | Dispatch | Register | Refuse | LetGo | StopScheduler
    | Own(who: Who, c: Choice, tid: nat)
    | Cancel(job: Id, reason: string) | Timeout(job: Id, reason: string)
    | KillStep(e: ExecId) | ProcExit(e: ExecId)
    | Shutdown

  // ---------------------------------------------------------------- reading and writing one execution

  function RowOf(s: State, j: Id): Option<Status> { if j in s.db then Some(s.db[j]) else None }

  function ViewOf(s: State, o: Owner): View
    requires o.e in s.execs && o.e in s.procs
  {
    var x := s.execs[o.e];
    View(x, s.procs[o.e], o.pc, x.job in s.held, RowOf(s, x.job), o.e in s.killers)
  }

  /** The state once the execution `e` has been brought to `v`, apart from its owner's position. */
  function Write(s: State, e: ExecId, v: View): State {
    var j := v.exec.job;
    s.(execs := s.execs[e := v.exec], procs := s.procs[e := v.proc],
       held := if v.holds then s.held else s.held - {j},
       db := if v.row.Some? then s.db[j := v.row.value] else s.db)
  }

  /** The state once `who`, working on `e`, has brought its execution to `v`. */
  function Put(s: State, who: Who, e: ExecId, v: View): State {
    Write(s, e, v).(owners := s.owners[who := Owner(e, v.pc)])
  }

  /** The first execution of the list that runs job `j`. */
  function FirstWith(s: State, ids: seq<ExecId>, j: Id): (r: Option<ExecId>)
    ensures r.Some? ==> r.value in ids && r.value in s.execs && s.execs[r.value].job == j
    ensures r.None? ==> forall e | e in ids && e in s.execs :: s.execs[e].job != j
  {
    if |ids| == 0 then None
    else if ids[0] in s.execs && s.execs[ids[0]].job == j then Some(ids[0])
    else FirstWith(s, ids[1..], j)
  }

  predicate Active(s: State, j: Id) { FirstWith(s, s.active, j).Some? }

  predicate Owns(s: State, who: Who, e: ExecId) { who in s.owners && s.owners[who].e == e }

  // ---------------------------------------------------------------- the steps

  function RowStep(s: State, j: Id, op: RowOp): State {
    match op
    case Submit(asCreated) =>
      if j in s.seen then s else s.(seen := s.seen + {j}, db := s.db[j := if asCreated then Created else Queued])
    case ReleaseHeld => if RowOf(s, j) == Some(Created) then s.(db := s.db[j := Queued]) else s
    case FailHeld => if RowOf(s, j) == Some(Created) then s.(db := s.db[j := Failed]) else s
    case CancelRow => if RowOf(s, j) in {Some(Created), Some(Queued)} then s.(db := s.db[j := Cancelled]) else s
    case Retry => if RowOf(s, j) in {Some(Failed), Some(Cancelled)} && !Active(s, j) then s.(db := s.db[j := Queued]) else s
    case Purge => if j in s.db && Terminal(s.db[j]) then s.(db := s.db - {j}) else s
    case FailStale =>   // a running row without an execution, found by the timeout pass of the scheduler's thread
      if s.sched.Idle? && RowOf(s, j) == Some(Running) && !Active(s, j)
      then s.(db := s.db[j := Failed], held := s.held - {j}) else s
  }

  /** active_register: refused once shutdown has begun, otherwise the new execution heads the list. */
  function RegisterStep(s: State): State {
    if !s.sched.Admitted? then s
    else if s.shutting then s.(sched := Refused(s.sched.job))
    else
      s.(active := [s.next] + s.active,
         execs := s.execs[s.next := Exec(s.sched.job, false, Queued, "", false, Queued, false)],
         procs := s.procs[s.next := NotStarted],
         owners := s.owners[Scheduler := Owner(s.next, Registered)],
         sched := Busy, next := s.next + 1)
  }

  function Without(ids: seq<ExecId>, e: ExecId): seq<ExecId> {
    if |ids| == 0 then ids else if ids[0] == e then ids[1..] else [ids[0]] + Without(ids[1..], e)
  }

  function Leave(s: State, who: Who): State {
    s.(owners := s.owners - {who}, sched := if who.Scheduler? then Idle else s.sched)
  }

  /** active_unregister, then the execution is freed and its thread returns. */
  function UnregisterStep(s: State, who: Who, e: ExecId): State {
    Leave(s, who).(active := Without(s.active, e), execs := s.execs - {e})
  }

  /** A new thread takes over where the old one leaves. */
  function HandOverStep(s: State, who: Who, tid: nat, e: ExecId, v: View): State {
    Put(Leave(s, who), Thread(tid), e, v)
  }

  function OwnStep(s: State, who: Who, c: Choice, tid: nat): State {
    if who !in s.owners || s.owners[who].e !in s.execs || s.owners[who].e !in s.procs then s
    else
      var o := s.owners[who];
      var v := ViewOf(s, o);
      if v.pc.Unregister? then UnregisterStep(s, who, o.e)
      else if Blocked(v) then s
      else if HandsOver(v, c) then
        if Thread(tid) in s.owners then s else HandOverStep(s, who, tid, o.e, Move(v, c))
      else Put(s, who, o.e, Move(v, c))
  }

  /** The locked section of a request, and of a shutdown for one execution of the list. Neither reads or
      changes the position of the owner, so any position will do here. */
  function Mark(s: State, e: ExecId, status: Status, reason: string): State {
    if e !in s.execs || e !in s.procs then s
    else
      Write(s, e, Requested(ViewOf(s, Owner(e, Registered)), status, reason))
        .(killers := if s.execs[e].pid then s.killers + multiset{e} else s.killers)
  }

  function RequestStep(s: State, j: Id, status: Status, reason: string): State {
    var r := FirstWith(s, s.active, j);
    if r.None? then s else Mark(s, r.value, status, reason)
  }

  function SweepOne(s: State, e: ExecId): State {
    if e !in s.execs || e !in s.procs then s else Write(s, e, ShutDown(ViewOf(s, Owner(e, Registered))))
  }

  function Sweep(s: State, ids: seq<ExecId>): State
    decreases |ids|
  {
    if |ids| == 0 then s else Sweep(SweepOne(s, ids[0]), ids[1..])
  }

  /** The scheduler's thread between executions. */
  function SchedStep(s: State, a: Action): State {
    match a
    case Pick(j) =>
      if s.sched.Idle? && RowOf(s, j) == Some(Queued) && j !in s.held
      then s.(sched := Reserved(j), held := s.held + {j}) else s
    case Dispatch =>
      if !s.sched.Reserved? then s
      else s.(sched := if RowOf(s, s.sched.job) == Some(Queued) then Admitted(s.sched.job) else Releasing(s.sched.job))
    case Register => RegisterStep(s)
    case Refuse =>
      if !s.sched.Refused? then s
      else
        var j := s.sched.job;
        s.(sched := Releasing(j), db := if j in s.db then s.db[j := Failed] else s.db)
    case LetGo =>
      if s.sched.Releasing? then s.(sched := Idle, held := s.held - {s.sched.job}) else s
    case _ => if s.sched.Idle? then s.(sched := Stopped) else s
  }

  /** A requester signals the process it copied the id of. */
  function KillerStep(s: State, e: ExecId): State {
    if e in s.killers && e in s.procs
    then s.(killers := s.killers - multiset{e}, procs := s.procs[e := Kill(s.procs[e])]) else s
  }

  function ExitStep(s: State, e: ExecId): State {
    if e in s.procs && (s.procs[e] == Alive || s.procs[e] == Killed) then s.(procs := s.procs[e := Exited]) else s
  }

  function Step(s: State, a: Action): State {
    match a
    case Row(j, op) => RowStep(s, j, op)
    case Own(who, c, tid) => OwnStep(s, who, c, tid)
    case Cancel(j, reason) => RequestStep(s, j, Cancelled, reason)
    case Timeout(j, reason) => RequestStep(s, j, Failed, reason)
    case KillStep(e) => KillerStep(s, e)
    case ProcExit(e) => ExitStep(s, e)
    case Shutdown => Sweep(s, s.active).(shutting := true)
    case _ => SchedStep(s, a)
  }

  function Run(s: State, acts: seq<Action>): State {
    if |acts| == 0 then s else Step(Run(s, acts[..|acts| - 1]), acts[|acts| - 1])
  }

  /** An orchestrator that has just started: nothing runs yet, whatever the rows say. */
  predicate Fresh(s: State) {
    && s.active == [] && s.execs == map[] && s.procs == map[] && s.owners == map[] && s.killers == multiset{}
    && s.sched == Idle && !s.shutting && s.held == {} && s.next == 0 && s.db.Keys <= s.seen
  }

  // ---------------------------------------------------------------- the invariant

  ghost predicate NoDup(ids: seq<ExecId>) { forall i, k :: 0 <= i < k < |ids| ==> ids[i] != ids[k] }

  /** The list holds exactly the allocated executions, each once; numbers are never reused. */
  ghost predicate Listed(s: State) {
    && NoDup(s.active)
    && (forall e :: e in s.active <==> e in s.execs)
    && (forall e: ExecId :: e in s.procs <==> e < s.next)
    && (forall e :: e in s.execs ==> e in s.procs)
  }

  /** Threads work only on allocated executions, no two on the same one, and none is left without a thread. */
  ghost predicate Owned(s: State) {
    && (forall w :: w in s.owners ==> s.owners[w].e in s.execs)
    && (forall w, w2 :: w in s.owners && w2 in s.owners && w != w2 ==> s.owners[w].e != s.owners[w2].e)
    && (forall e :: e in s.execs ==> exists w :: Owns(s, w, e))
    && (Scheduler in s.owners <==> s.sched.Busy?)
  }

  ghost predicate SaneAt(s: State, o: Owner) { o.e in s.execs && o.e in s.procs && Sane(ViewOf(s, o)) }

  ghost predicate AllSane(s: State) {
    forall w :: w in s.owners ==> SaneAt(s, s.owners[w])
  }

  ghost predicate Distinct(s: State) {
    forall e, e2 :: e in s.execs && e2 in s.execs && e != e2 ==> s.execs[e].job != s.execs[e2].job
  }

  ghost predicate Reserving(s: State) { s.sched.Reserved? || s.sched.Admitted? || s.sched.Refused? || s.sched.Releasing? }

  /** Every allocation record belongs to an execution, or to the job the scheduler is just dispatching. */
  ghost predicate Holding(s: State) {
    && (forall j :: j in s.held ==> (Reserving(s) && s.sched.job == j) || Held(s, j))
    && (Reserving(s) ==>
          && s.sched.job in s.held && s.sched.job in s.seen
          && (forall e :: e in s.execs ==> s.execs[e].job != s.sched.job)
          && (RowOf(s, s.sched.job) in {None, Some(Queued)} || Terminal(RowOf(s, s.sched.job).value)))
  }

  ghost predicate Held(s: State, j: Id) { exists e :: e in s.execs && s.execs[e].job == j }

  predicate Gone(p: Proc) { p == NotStarted || p == Reaped }

  /** A freed execution leaves no process behind; nobody is about to kill a process that was never started. */
  ghost predicate NoneLeft(s: State) {
    && (forall e :: e in s.procs && e !in s.execs ==> Gone(s.procs[e]))
    && (forall e :: e in s.killers ==> e in s.procs && s.procs[e] != NotStarted)
  }

  ghost predicate IdsSeen(s: State) {
    s.db.Keys <= s.seen && (forall e :: e in s.execs ==> s.execs[e].job in s.seen)
  }

  ghost predicate ShutFits(s: State) { s.shutting ==> forall e :: e in s.execs ==> s.execs[e].requested }

  ghost predicate Core(s: State) {
    Listed(s) && Owned(s) && AllSane(s) && Distinct(s) && Holding(s) && NoneLeft(s) && IdsSeen(s)
  }

  ghost predicate Inv(s: State) { Core(s) && ShutFits(s) }

  // ---------------------------------------------------------------- writing one execution keeps it

  /** `v` is what an execution may become: same job, no row or record conjured up. */
  ghost predicate Fits(s: State, o: Owner, v: View)
    requires Listed(s) && o.e in s.execs
  {
    && v.exec.job == s.execs[o.e].job && v.pending == (o.e in s.killers)
    && (v.row.Some? <==> v.exec.job in s.db)
    && (v.holds ==> v.exec.job in s.held)
  }

  lemma PutSelf(s: State, who: Who, o: Owner, v: View)
    requires Listed(s) && o.e in s.execs && Fits(s, o, v)
    ensures var t := Put(s, who, o.e, v); Listed(t) && t.owners[who] == Owner(o.e, v.pc) && ViewOf(t, t.owners[who]) == v
  {
  }

  lemma PutOther(s: State, who: Who, o: Owner, v: View, o2: Owner)
    requires Listed(s) && Distinct(s) && o.e in s.execs && Fits(s, o, v) && o2.e in s.execs && o2.e != o.e
    ensures var t := Put(s, who, o.e, v); Listed(t) && ViewOf(t, o2) == ViewOf(s, o2)
  {
  }

  lemma PutKeepsHolding(s: State, who: Who, o: Owner, v: View)
    requires Listed(s) && Holding(s) && Distinct(s) && o.e in s.execs && Fits(s, o, v)
    ensures Holding(Put(s, who, o.e, v))
  {
    hide Sane;
    var t := Put(s, who, o.e, v);
    forall j | j in t.held ensures (Reserving(t) && t.sched.job == j) || Held(t, j) {
      if Held(s, j) {
        var e :| e in s.execs && s.execs[e].job == j;
        assert e in t.execs && t.execs[e].job == j;
      }
    }
  }

  /** Nobody changes hands. */
  lemma OwnedFrame(s: State, t: State)
    requires Owned(s) && t.execs.Keys == s.execs.Keys && t.owners.Keys == s.owners.Keys && t.sched == s.sched
    requires forall w :: w in s.owners ==> t.owners[w].e == s.owners[w].e
    ensures Owned(t)
  {
    forall e | e in t.execs ensures exists w :: Owns(t, w, e) {
      assert e in s.execs;
      var w :| Owns(s, w, e);
      assert Owns(t, w, e);
    }
  }

  /** Nothing an execution's view depends on changes. */
  lemma SaneFrame(s: State, t: State, o: Owner)
    requires SaneAt(s, o) && o.e in t.execs && o.e in t.procs && t.execs[o.e] == s.execs[o.e] && t.procs[o.e] == s.procs[o.e]
    requires var j := s.execs[o.e].job; (j in t.held <==> j in s.held) && RowOf(t, j) == RowOf(s, j)
    requires o.e in t.killers <==> o.e in s.killers
    ensures SaneAt(t, o)
  {
    hide Sane;
    assert ViewOf(t, o) == ViewOf(s, o);
  }

  lemma HoldingFrame(s: State, t: State)
    requires Holding(s) && t.held == s.held && t.sched == s.sched && s.seen <= t.seen && t.execs.Keys == s.execs.Keys
    requires forall e :: e in s.execs ==> t.execs[e].job == s.execs[e].job
    requires Reserving(s) ==> var r := RowOf(t, t.sched.job); r in {None, Some(Queued)} || Terminal(r.value)
    ensures Holding(t)
  {
    forall j | j in t.held ensures (Reserving(t) && t.sched.job == j) || Held(t, j) {
      if Held(s, j) {
        var e :| e in s.execs && s.execs[e].job == j;
        assert e in t.execs && t.execs[e].job == j;
      }
    }
  }

  lemma PutKeepsOwned(s: State, who: Who, v: View)
    requires Owned(s) && who in s.owners
    ensures Owned(Put(s, who, s.owners[who].e, v))
  {
    OwnedFrame(s, Put(s, who, s.owners[who].e, v));
  }

  lemma PutKeepsAllSane(s: State, who: Who, v: View)
    requires Listed(s) && Owned(s) && AllSane(s) && Distinct(s) && who in s.owners && Fits(s, s.owners[who], v) && Sane(v)
    ensures var t := Put(s, who, s.owners[who].e, v); AllSane(t)
  {
    hide Sane, Fits, Distinct;
    var o := s.owners[who];
    var t := Put(s, who, o.e, v);
    PutSelf(s, who, o, v);
    forall w | w in t.owners ensures SaneAt(t, t.owners[w]) {
      if w != who { PutOther(s, who, o, v, s.owners[w]); }
    }
  }

  lemma PutKeepsRest(s: State, who: Who, o: Owner, v: View)
    requires Listed(s) && Distinct(s) && NoneLeft(s) && IdsSeen(s) && o.e in s.execs && Fits(s, o, v) && PendingFits(v)
    ensures var t := Put(s, who, o.e, v); Listed(t) && Distinct(t) && NoneLeft(t) && IdsSeen(t)
  {
  }

  lemma PutKeepsCore(s: State, who: Who, v: View)
    requires Core(s) && who in s.owners && Fits(s, s.owners[who], v) && Sane(v)
    ensures Core(Put(s, who, s.owners[who].e, v))
  {
    PutKeepsOwned(s, who, v);
    PutKeepsAllSane(s, who, v);
    PutKeepsHolding(s, who, s.owners[who], v);
    PutKeepsRest(s, who, s.owners[who], v);
    hide *;
  }

  // ---------------------------------------------------------------- every step keeps it

  lemma KillersKeepIds(s: State, k: multiset<ExecId>)
    requires Listed(s) && Distinct(s) && IdsSeen(s)
    ensures var t := s.(killers := k); Listed(t) && Distinct(t) && IdsSeen(t)
  {
  }

  lemma KillersKeepRest(s: State, e: ExecId, k: multiset<ExecId>)
    requires Owned(s) && Holding(s) && NoneLeft(s) && e in s.procs
    requires forall x :: x in k ==> x in s.killers || (x == e && s.procs[e] != NotStarted)
    ensures var t := s.(killers := k); Owned(t) && Holding(t) && NoneLeft(t)
  {
    var t := s.(killers := k);
    assert NoneLeft(t) by { hide Owned, Holding, Gone; }
    hide NoneLeft;
    assert Owned(t) by { hide Holding; OwnedFrame(s, t); }
    assert Holding(t) by { hide Owned; HoldingFrame(s, t); }
  }

  lemma KillersKeepSaneAt(s: State, e: ExecId, k: multiset<ExecId>, o: Owner)
    requires SaneAt(s, o) && (o.e != e ==> (o.e in k <==> o.e in s.killers))
    requires o.e == e ==> Sane(ViewOf(s, o).(pending := e in k))
    ensures SaneAt(s.(killers := k), o)
  {
    hide Sane;
    assert ViewOf(s.(killers := k), o) == if o.e == e then ViewOf(s, o).(pending := e in k) else ViewOf(s, o);
  }

  lemma KillersKeepAllSane(s: State, e: ExecId, k: multiset<ExecId>)
    requires AllSane(s)
    requires forall x :: x != e ==> (x in k <==> x in s.killers)
    requires forall w :: Owns(s, w, e) && SaneAt(s, s.owners[w]) ==> Sane(ViewOf(s, s.owners[w]).(pending := e in k))
    ensures AllSane(s.(killers := k))
  {
    hide Sane, ViewOf;
    forall w | w in s.owners ensures SaneAt(s.(killers := k), s.owners[w]) {
      assert SaneAt(s, s.owners[w]) && (s.owners[w].e == e ==> Owns(s, w, e));
      KillersKeepSaneAt(s, e, k, s.owners[w]);
    }
  }

  /** Killers come and go. */
  lemma KillersKeepCore(s: State, e: ExecId, k: multiset<ExecId>)
    requires Core(s) && e in s.procs
    requires forall x :: x != e ==> (x in k <==> x in s.killers)
    requires e in k ==> s.procs[e] != NotStarted
    requires forall w :: Owns(s, w, e) && SaneAt(s, s.owners[w]) ==> Sane(ViewOf(s, s.owners[w]).(pending := e in k))
    ensures Core(s.(killers := k))
  {
    hide Sane, Owned, Holding, NoneLeft, IdsSeen, Distinct, SaneAt, ViewOf, AllSane;
    KillersKeepIds(s, k);
    KillersKeepRest(s, e, k);
    KillersKeepAllSane(s, e, k);
    hide Listed;
  }

  /** One execution is brought to `v` by someone who leaves its owner where it is. */
  lemma WriteKeepsCore(s: State, w: Who, v: View)
    requires Core(s) && w in s.owners && Fits(s, s.owners[w], v) && Sane(v) && v.pc == s.owners[w].pc
    ensures Core(Write(s, s.owners[w].e, v))
  {
    var e := s.owners[w].e;
    assert Put(s, w, e, v) == Write(s, e, v) by {
      hide Core, Fits, Sane;
      assert s.owners[w := Owner(e, v.pc)] == s.owners;
    }
    hide *;
    PutKeepsCore(s, w, v);
  }

  /** The state in which requester and owner meet: the request as seen from the owner's position. */
  lemma MarkIsWrite(s: State, e: ExecId, o: Owner, status: Status, reason: string)
    requires o.e == e && e in s.execs && e in s.procs
    ensures var k := if s.execs[e].pid then s.killers + multiset{e} else s.killers;
      Mark(s, e, status, reason) == Write(s.(killers := k), e, Requested(ViewOf(s, o), status, reason))
  {
    hide Asked, Ends;
  }

  lemma MarkFits(s: State, t: State, o: Owner, status: Status, reason: string)
    requires Listed(s) && o.e in s.execs
    requires t == if s.execs[o.e].pid then s.(killers := s.killers + multiset{o.e}) else s
    ensures Listed(t) && Fits(t, o, Requested(ViewOf(s, o), status, reason))
  {
    hide Ends;
  }

  lemma MarkKeepsCore(s: State, e: ExecId, status: Status, reason: string)
    requires Core(s) && e in s.execs && status in {Cancelled, Failed}
    ensures Core(Mark(s, e, status, reason))
  {
    var w :| Owns(s, w, e);
    var o := s.owners[w];
    assert SaneAt(s, o);
    var t := if s.execs[e].pid then s.(killers := s.killers + multiset{e}) else s;
    hide NoneLeft, Holding, Distinct, IdsSeen, Owned, Sane;
    AddKiller(s, e);
    RequestKeepsSane(ViewOf(s, o), status, reason);
    MarkIsWrite(s, e, o, status, reason);
    MarkFits(s, t, o, status, reason);
    hide *;
    WriteKeepsCore(t, w, Requested(ViewOf(s, o), status, reason));
  }

  lemma AddKiller(s: State, e: ExecId)
    requires Core(s) && e in s.execs
    ensures Core(if s.execs[e].pid then s.(killers := s.killers + multiset{e}) else s)
  {
    if s.execs[e].pid {
      var w :| Owns(s, w, e);
      var v := ViewOf(s, s.owners[w]);
      assert Sane(v);
      PublishedMayBeKilled(v);
      assert s.procs[e] != NotStarted;
      hide Sane, Holding, NoneLeft, Distinct, IdsSeen;
      KillersKeepCore(s, e, s.killers + multiset{e});
    }
  }

  /** Killing and dying processes. */
  lemma ProcessKeepsCore(s: State, e: ExecId)
    requires Core(s) && e in s.execs
    ensures e in s.killers ==> Core(s.(procs := s.procs[e := Kill(s.procs[e])]))
    ensures s.procs[e] == Alive || s.procs[e] == Killed ==> Core(s.(procs := s.procs[e := Exited]))
  {
    var w :| Owns(s, w, e);
    assert SaneAt(s, s.owners[w]);
    var v := ViewOf(s, s.owners[w]);
    hide Owned, AllSane, NoneLeft, Holding, Distinct, IdsSeen, Sane;
    ProcessKeepsSane(v, v.pending);
    if e in s.killers {
      ProcessIsWrite(s, s.owners[w], Kill(v.proc));
      WriteKeepsCore(s, w, v.(proc := Kill(v.proc)));
    }
    if v.proc == Alive || v.proc == Killed {
      ProcessIsWrite(s, s.owners[w], Exited);
      WriteKeepsCore(s, w, v.(proc := Exited));
    }
  }

  lemma ProcessIsWrite(s: State, o: Owner, p: Proc)
    requires Listed(s) && o.e in s.execs
    ensures Write(s, o.e, ViewOf(s, o).(proc := p)) == s.(procs := s.procs[o.e := p])
    ensures Fits(s, o, ViewOf(s, o).(proc := p))
  {
    var v := ViewOf(s, o);
    assert s.execs[o.e := v.exec] == s.execs;
    if v.row.Some? { assert s.db[v.exec.job := v.row.value] == s.db; }
    assert !v.holds ==> s.held - {v.exec.job} == s.held;
  }

  lemma KillKeepsCore(s: State, e: ExecId)
    requires Core(s) && e in s.killers && e in s.procs
    ensures Core(s.(killers := s.killers - multiset{e}, procs := s.procs[e := Kill(s.procs[e])]))
  {
    var t := s.(procs := s.procs[e := Kill(s.procs[e])]);
    if e in s.execs { ProcessKeepsCore(s, e); } else { assert t.procs == s.procs; }
    hide Core;
    KillerIsDone(t, e);
  }

  lemma KillerIsDone(s: State, e: ExecId)
    requires Core(s) && e in s.killers && e in s.procs && s.procs[e] != Alive
    ensures Core(s.(killers := s.killers - multiset{e}))
  {
    var k := s.killers - multiset{e};
    hide Owned, AllSane, Holding, Distinct, IdsSeen;
    forall w | Owns(s, w, e) && SaneAt(s, s.owners[w]) ensures Sane(ViewOf(s, s.owners[w]).(pending := e in k)) {
      ProcessKeepsSane(ViewOf(s, s.owners[w]), e in k);
    }
    assert s.procs[e] != NotStarted;
    hide NoneLeft, Sane;
    KillersKeepCore(s, e, k);
  }

  // ---- rows

  lemma RowKeepsSaneAt(s: State, t: State, j: Id, o: Owner)
    requires SaneAt(s, o) && t == s.(db := t.db, seen := t.seen) && (forall i :: i != j ==> RowOf(t, i) == RowOf(s, i))
    requires s.execs[o.e].job == j ==> Sane(ViewOf(s, o).(row := RowOf(t, j)))
    ensures SaneAt(t, o)
  {
    hide Sane;
    assert ViewOf(t, o) == ViewOf(s, o).(row := RowOf(t, s.execs[o.e].job));
  }

  lemma RowKeepsAllSane(s: State, t: State, j: Id)
    requires AllSane(s) && t == s.(db := t.db, seen := t.seen) && (forall i :: i != j ==> RowOf(t, i) == RowOf(s, i))
    requires forall o :: SaneAt(s, o) && s.execs[o.e].job == j ==> Sane(ViewOf(s, o).(row := RowOf(t, j)))
    ensures AllSane(t)
  {
    hide Sane, ViewOf, RowOf;
    forall w | w in t.owners ensures SaneAt(t, t.owners[w]) {
      assert SaneAt(s, s.owners[w]);
      RowKeepsSaneAt(s, t, j, s.owners[w]);
    }
  }

  ghost predicate MayDispatch(r: Option<Status>) { r in {None, Some(Queued)} || Terminal(r.value) }

  lemma RowKeepsIds(s: State, t: State, j: Id)
    requires Listed(s) && Distinct(s) && NoneLeft(s) && IdsSeen(s)
    requires t == s.(db := t.db, seen := t.seen) && (forall i :: i != j ==> RowOf(t, i) == RowOf(s, i))
    requires s.seen <= t.seen && j in t.seen
    ensures Listed(t) && Distinct(t) && NoneLeft(t) && IdsSeen(t)
  {
    hide Gone;
    assert IdsSeen(t) by {
      hide Listed, Distinct, NoneLeft;
      forall i | i in t.db ensures i in t.seen { assert i != j ==> RowOf(s, i).Some?; }
    }
    hide IdsSeen, RowOf;
  }

  lemma RowKeepsRest(s: State, t: State, j: Id)
    requires Owned(s) && Holding(s)
    requires t == s.(db := t.db, seen := t.seen) && (forall i :: i != j ==> RowOf(t, i) == RowOf(s, i)) && s.seen <= t.seen
    requires Reserving(s) && s.sched.job == j ==> MayDispatch(RowOf(t, j))
    ensures Owned(t) && Holding(t)
  {
    assert Owned(t) by { hide Holding, RowOf; OwnedFrame(s, t); }
    hide Owned;
    HoldingFrame(s, t);
  }

  lemma RowKeepsCore(s: State, t: State, j: Id)
    requires Core(s) && t == s.(db := t.db, seen := t.seen) && (forall i :: i != j ==> RowOf(t, i) == RowOf(s, i))
    requires s.seen <= t.seen && j in t.seen
    requires forall o :: SaneAt(s, o) && s.execs[o.e].job == j ==> Sane(ViewOf(s, o).(row := RowOf(t, j)))
    requires Reserving(s) && s.sched.job == j ==> MayDispatch(RowOf(t, j))
    ensures Core(t)
  {
    hide AllSane, Sane, SaneAt, ViewOf, Listed, Distinct, NoneLeft, IdsSeen, Owned, Holding, RowOf, MayDispatch;
    RowKeepsAllSane(s, t, j);
    RowKeepsIds(s, t, j);
    RowKeepsRest(s, t, j);
  }

  /** No execution is running a job that is not on the list. */
  lemma NotActive(s: State, j: Id)
    requires Listed(s) && !Active(s, j)
    ensures forall e :: e in s.execs ==> s.execs[e].job != j
  {
  }

  lemma RowStepKeepsCore(s: State, j: Id, op: RowOp)
    requires Core(s)
    ensures Core(RowStep(s, j, op))
  {
    var t := RowStep(s, j, op);
    if t != s {
      RowStepIsWrite(s, j, op);
      forall o | SaneAt(s, o) && s.execs[o.e].job == j ensures Sane(ViewOf(s, o).(row := RowOf(t, j))) {
        hide Owned, AllSane, NoneLeft, Holding, Distinct, Sane;
        RowKeepsSane(ViewOf(s, o));
        if op.Retry? || op.FailStale? { NotActive(s, j); }
      }
      assert Reserving(s) && s.sched.job == j ==> MayDispatch(RowOf(t, j));
      hide Core, Sane, RowStep;
      RowKeepsCore(s, t, j);
    }
  }

  /** A row operation touches one row; the reservation it may drop is not there. */
  lemma RowStepIsWrite(s: State, j: Id, op: RowOp)
    requires Core(s)
    ensures var t := RowStep(s, j, op);
      t == s.(db := t.db, seen := t.seen) && s.seen <= t.seen && (t != s ==> j in t.seen)
      && forall i :: i != j ==> RowOf(t, i) == RowOf(s, i)
  {
    hide Owned, AllSane, NoneLeft, Distinct;
    if op.FailStale? && s.sched.Idle? && !Active(s, j) {
      NotActive(s, j);
      assert j !in s.held;
      assert s.held - {j} == s.held;
    }
  }

  // ---- the scheduler's own steps

  /** The scheduler moves on without entering or leaving an execution; records of running jobs stay. */
  lemma SchedKeepsOwned(s: State, t: State)
    requires Owned(s) && t == s.(sched := t.sched, held := t.held) && !s.sched.Busy? && !t.sched.Busy?
    ensures Owned(t)
  {
    forall e | e in t.execs ensures exists w :: Owns(t, w, e) { var w :| Owns(s, w, e); assert Owns(t, w, e); }
  }

  lemma SchedKeepsCore(s: State, t: State)
    requires Core(s) && t == s.(sched := t.sched, held := t.held) && !s.sched.Busy? && !t.sched.Busy?
    requires forall e :: e in s.execs ==> (s.execs[e].job in t.held <==> s.execs[e].job in s.held)
    requires Holding(t)
    ensures Core(t)
  {
    hide Sane, Holding, Gone, Owned;
    SchedKeepsOwned(s, t);
    assert AllSane(t) by {
      hide NoneLeft, Distinct, IdsSeen, Listed;
      forall w | w in t.owners ensures SaneAt(t, t.owners[w]) {
        assert SaneAt(s, s.owners[w]);
        SaneFrame(s, t, s.owners[w]);
      }
    }
    hide AllSane;
  }

  /** A queued job without an allocation record has no execution. */
  lemma QueuedUnheldIsIdle(s: State, j: Id, e: ExecId)
    requires Core(s) && RowOf(s, j) == Some(Queued) && j !in s.held && e in s.execs
    ensures s.execs[e].job != j
  {
    hide Sane;
    var w :| Owns(s, w, e);
    assert SaneAt(s, s.owners[w]);
    if s.execs[e].job == j { QueuedIsHeld(ViewOf(s, s.owners[w])); }
  }

  lemma PickKeepsCore(s: State, j: Id)
    requires Core(s) && s.sched.Idle? && RowOf(s, j) == Some(Queued) && j !in s.held
    ensures Core(s.(sched := Reserved(j), held := s.held + {j}))
  {
    var t := s.(sched := Reserved(j), held := s.held + {j});
    forall e | e in s.execs ensures s.execs[e].job != j { QueuedUnheldIsIdle(s, j, e); }
    assert j in s.seen;
    assert Holding(t) by {
      hide Owned, AllSane, NoneLeft, Distinct, Listed, IdsSeen;
      forall i | i in t.held && i != j ensures Held(t, i) {
        var e :| e in s.execs && s.execs[e].job == i;
        assert e in t.execs;
      }
    }
    hide Core, Holding;
    SchedKeepsCore(s, t);
  }

  lemma DispatchKeepsCore(s: State, t: State)
    requires Core(s) && Reserving(s) && t == s.(sched := t.sched) && Reserving(t) && t.sched.job == s.sched.job
    ensures Core(t)
  {
    assert Holding(t) by {
      hide Owned, AllSane, NoneLeft, Distinct, Listed, IdsSeen;
      forall i | i in t.held && i != s.sched.job ensures Held(t, i) {
        var e :| e in s.execs && s.execs[e].job == i;
        assert e in t.execs;
      }
    }
    hide Core, Holding;
    SchedKeepsCore(s, t);
  }

  lemma RefuseKeepsCore(s: State)
    requires Core(s) && s.sched.Refused?
    ensures Core(SchedStep(s, Refuse))
  {
    var j := s.sched.job;
    var t := s.(db := if j in s.db then s.db[j := Failed] else s.db);
    if j in s.db {
      assert forall o :: SaneAt(s, o) ==> s.execs[o.e].job != j;
      assert j in t.seen;
      hide Core, Sane, SaneAt;
      RowKeepsCore(s, t, j);
    }
    hide Core;
    DispatchKeepsCore(t, t.(sched := Releasing(j)));
  }

  lemma LetGoKeepsCore(s: State)
    requires Core(s) && s.sched.Releasing?
    ensures Core(s.(sched := Idle, held := s.held - {s.sched.job}))
  {
    var t := s.(sched := Idle, held := s.held - {s.sched.job});
    assert Holding(t) by {
      hide Owned, AllSane, NoneLeft, Distinct, Listed, IdsSeen;
      forall i | i in t.held ensures Held(t, i) {
        var e :| e in s.execs && s.execs[e].job == i;
        assert e in t.execs;
      }
    }
    assert forall e :: e in s.execs ==> s.execs[e].job != s.sched.job;
    hide Core, Holding;
    SchedKeepsCore(s, t);
  }

  lemma StopKeepsCore(s: State)
    requires Core(s) && s.sched.Idle?
    ensures Core(s.(sched := Stopped))
  {
    var t := s.(sched := Stopped);
    assert Holding(t) by {
      hide Owned, AllSane, NoneLeft, Distinct, Listed, IdsSeen;
      forall i | i in t.held ensures Held(t, i) {
        var e :| e in s.execs && s.execs[e].job == i;
        assert e in t.execs;
      }
    }
    hide Core, Holding;
    SchedKeepsCore(s, t);
  }

  // ---- executions come and go

  lemma RegisterKeepsCore(s: State)
    requires Core(s) && s.sched.Admitted?
    ensures Core(RegisterStep(s))
  {
    if s.shutting {
      hide Core;
      assert Reserving(s);
      DispatchKeepsCore(s, RegisterStep(s));
    } else {
      RegisterKeepsListed(s);
      RegisterKeepsIds(s);
      RegisterKeepsOwned(s);
      RegisterKeepsSane(s);
      RegisterKeepsHolding(s);
      hide *;
    }
  }

  lemma RegisterKeepsListed(s: State)
    requires Listed(s) && s.sched.Admitted? && !s.shutting
    ensures Listed(RegisterStep(s))
  {
    var t := RegisterStep(s);
    assert s.next !in s.execs && s.next !in s.active;
    assert t.active[1..] == s.active;
    assert NoDup(t.active) by {
      forall i, k | 0 <= i < k < |t.active| ensures t.active[i] != t.active[k] { assert t.active[k] == s.active[k - 1]; }
    }
    hide NoDup;
  }

  lemma RegisterKeepsIds(s: State)
    requires Listed(s) && Distinct(s) && NoneLeft(s) && IdsSeen(s) && Holding(s) && s.sched.Admitted? && !s.shutting
    ensures var t := RegisterStep(s); Distinct(t) && NoneLeft(t) && IdsSeen(t)
  {
    assert s.next !in s.execs && s.next !in s.procs;
    hide Listed, Gone;
  }

  lemma RegisterKeepsOwned(s: State)
    requires Core(s) && s.sched.Admitted? && !s.shutting
    ensures Owned(RegisterStep(s))
  {
    hide AllSane, NoneLeft, Distinct, IdsSeen, Holding;
    var t := RegisterStep(s);
    assert s.next !in s.execs;
    forall e | e in t.execs ensures exists w :: Owns(t, w, e) {
      if e == s.next { assert Owns(t, Scheduler, e); } else { var w :| Owns(s, w, e); assert Owns(t, w, e); }
    }
  }

  /** A job enters with its allocation, its row queued, gone or ended, and no process. */
  lemma NewcomerIsSane(s: State)
    requires Listed(s) && NoneLeft(s) && Holding(s) && s.sched.Admitted? && !s.shutting
    ensures SaneAt(RegisterStep(s), Owner(s.next, Registered))
  {
    assert s.next !in s.procs && s.next !in s.killers;
  }

  lemma RegisterKeepsSane(s: State)
    requires Core(s) && s.sched.Admitted? && !s.shutting
    ensures AllSane(RegisterStep(s))
  {
    hide NoneLeft, Distinct, IdsSeen, Holding, Sane, SaneAt;
    var t := RegisterStep(s);
    NewcomerIsSane(s);
    forall w | w in t.owners ensures SaneAt(t, t.owners[w]) {
      if w != Scheduler {
        assert SaneAt(s, s.owners[w]);
        assert s.owners[w].e != s.next;
        SaneFrame(s, t, s.owners[w]);
      }
    }
  }

  lemma RegisterKeepsHolding(s: State)
    requires Core(s) && s.sched.Admitted? && !s.shutting
    ensures Holding(RegisterStep(s))
  {
    hide AllSane, NoneLeft, Distinct, IdsSeen, Owned;
    var t := RegisterStep(s);
    assert s.next !in s.execs;
    forall j | j in t.held ensures Held(t, j) {
      if j == s.sched.job { assert s.next in t.execs && t.execs[s.next].job == j; }
      else { var e :| e in s.execs && s.execs[e].job == j; assert e in t.execs && t.execs[e].job == j; }
    }
  }

  lemma {:induction false} WithoutOne(ids: seq<ExecId>, e: ExecId)
    requires NoDup(ids)
    ensures NoDup(Without(ids, e)) && forall x :: x in Without(ids, e) <==> x in ids && x != e
  {
    if |ids| > 0 {
      var rest := ids[1..];
      assert ids == [ids[0]] + rest;
      assert NoDup(rest) && ids[0] !in rest;
      if ids[0] != e {
        WithoutOne(rest, e);
        var r := Without(rest, e);
        assert NoDup([ids[0]] + r) by {
          forall i, k | 0 <= i < k < |r| + 1 ensures ([ids[0]] + r)[i] != ([ids[0]] + r)[k] {
            if i > 0 { assert r[i - 1] != r[k - 1]; } else { assert r[k - 1] in r; }
          }
        }
      }
    }
  }

  /** Whoever unregisters has reaped its process, cleared its id and released its allocation. */
  lemma CleanExit(s: State, who: Who)
    requires Core(s) && who in s.owners && s.owners[who].pc.Unregister?
    ensures var e := s.owners[who].e;
      e in s.execs && e in s.procs && Gone(s.procs[e]) && !s.execs[e].pid && s.execs[e].job !in s.held
  {
    assert SaneAt(s, s.owners[who]);
    hide Owned, AllSane, NoneLeft, Distinct, IdsSeen, Holding, Sane;
    CleanEnd(ViewOf(s, s.owners[who]));
  }

  lemma UnregisterKeepsCore(s: State, who: Who)
    requires Core(s) && who in s.owners && s.owners[who].pc.Unregister?
    ensures Core(UnregisterStep(s, who, s.owners[who].e))
  {
    CleanExit(s, who);
    UnregisterKeepsIds(s, who);
    UnregisterKeepsOwned(s, who);
    UnregisterKeepsSane(s, who);
    UnregisterKeepsHolding(s, who);
    hide *;
  }

  lemma UnregisterKeepsIds(s: State, who: Who)
    requires Listed(s) && Distinct(s) && NoneLeft(s) && IdsSeen(s) && who in s.owners
    requires s.owners[who].e in s.procs ==> Gone(s.procs[s.owners[who].e])
    ensures var t := UnregisterStep(s, who, s.owners[who].e); Listed(t) && Distinct(t) && NoneLeft(t) && IdsSeen(t)
  {
    WithoutOne(s.active, s.owners[who].e);
    hide Without, Gone;
  }

  lemma UnregisterKeepsOwned(s: State, who: Who)
    requires Owned(s) && who in s.owners
    ensures Owned(UnregisterStep(s, who, s.owners[who].e))
  {
    var t := UnregisterStep(s, who, s.owners[who].e);
    forall x | x in t.execs ensures exists w :: Owns(t, w, x) {
      var w :| Owns(s, w, x);
      assert Owns(t, w, x);
    }
  }

  lemma UnregisterKeepsSane(s: State, who: Who)
    requires Owned(s) && AllSane(s) && who in s.owners
    ensures AllSane(UnregisterStep(s, who, s.owners[who].e))
  {
    hide Sane;
    var t := UnregisterStep(s, who, s.owners[who].e);
    forall w | w in t.owners ensures SaneAt(t, t.owners[w]) {
      assert SaneAt(s, s.owners[w]);
      SaneFrame(s, t, s.owners[w]);
    }
  }

  lemma UnregisterKeepsHolding(s: State, who: Who)
    requires Holding(s) && Owned(s) && who in s.owners && s.execs[s.owners[who].e].job !in s.held
    ensures Holding(UnregisterStep(s, who, s.owners[who].e))
  {
    var t := UnregisterStep(s, who, s.owners[who].e);
    forall j | j in t.held ensures (Reserving(t) && t.sched.job == j) || Held(t, j) {
      if Held(s, j) {
        var e :| e in s.execs && s.execs[e].job == j;
        assert e in t.execs && t.execs[e].job == j;
      }
    }
  }

  function PassOn(s: State, who: Who, tid: nat): State
    requires who in s.owners
  {
    Leave(s, who).(owners := (s.owners - {who})[Thread(tid) := s.owners[who]])
  }

  /** The execution passes to a thread that has just been created. */
  lemma PassOnKeepsCore(s: State, who: Who, tid: nat)
    requires Core(s) && who in s.owners && Thread(tid) !in s.owners
    ensures Core(PassOn(s, who, tid))
  {
    PassOnKeepsIds(s, who, tid);
    PassOnKeepsOwned(s, who, tid);
    PassOnKeepsAllSane(s, who, tid);
    PassOnKeepsHolding(s, PassOn(s, who, tid));
    hide *;
  }

  lemma PassOnKeepsIds(s: State, who: Who, tid: nat)
    requires Listed(s) && Distinct(s) && NoneLeft(s) && IdsSeen(s) && who in s.owners
    ensures var t := PassOn(s, who, tid); Listed(t) && Distinct(t) && NoneLeft(t) && IdsSeen(t)
  {
    hide Gone;
  }

  lemma PassOnKeepsOwned(s: State, who: Who, tid: nat)
    requires Owned(s) && who in s.owners && Thread(tid) !in s.owners
    ensures Owned(PassOn(s, who, tid))
  {
    var t := PassOn(s, who, tid);
    forall x | x in t.execs ensures exists w :: Owns(t, w, x) {
      var w :| Owns(s, w, x);
      assert Owns(t, if w == who then Thread(tid) else w, x);
    }
  }

  lemma PassOnKeepsAllSane(s: State, who: Who, tid: nat)
    requires AllSane(s) && who in s.owners
    ensures AllSane(PassOn(s, who, tid))
  {
    hide Sane;
    var t := PassOn(s, who, tid);
    forall w | w in t.owners ensures SaneAt(t, t.owners[w]) {
      var x := if w == Thread(tid) then who else w;
      assert t.owners[w] == s.owners[x] && SaneAt(s, s.owners[x]);
      SaneFrame(s, t, t.owners[w]);
    }
  }

  lemma PassOnKeepsHolding(s: State, t: State)
    requires Holding(s) && t == s.(owners := t.owners, sched := t.sched)
    requires t.sched == s.sched || (s.sched.Busy? && t.sched.Idle?)
    ensures Holding(t)
  {
    forall j | j in t.held ensures (Reserving(t) && t.sched.job == j) || Held(t, j) {
      if Held(s, j) {
        var e :| e in s.execs && s.execs[e].job == j;
        assert e in t.execs && t.execs[e].job == j;
      }
    }
  }

  // ---- the owner moves

  lemma MoveFits(s: State, o: Owner, c: Choice)
    requires Listed(s) && SaneAt(s, o)
    requires !o.pc.Unregister? && !Blocked(ViewOf(s, o))
    ensures var v := Move(ViewOf(s, o), c); Fits(s, o, v) && Sane(v)
  {
    var v := ViewOf(s, o);
    MoveKeepsSane(v, c);
    MoveKeepsJob(v, c);
    MoveKeepsRow(v, c);
    hide Move, Sane;
  }

  lemma HandOverIsPut(s: State, who: Who, tid: nat, e: ExecId, v: View)
    requires who in s.owners && s.owners[who].e == e
    ensures HandOverStep(s, who, tid, e, v) == Put(PassOn(s, who, tid), Thread(tid), e, v)
  {
    assert (s.owners - {who})[Thread(tid) := s.owners[who]][Thread(tid) := Owner(e, v.pc)]
        == (s.owners - {who})[Thread(tid) := Owner(e, v.pc)];
  }

  lemma PassOnFits(s: State, who: Who, tid: nat, v: View)
    requires Listed(s) && who in s.owners && s.owners[who].e in s.execs && Fits(s, s.owners[who], v)
    ensures var t := PassOn(s, who, tid); Listed(t) && Fits(t, s.owners[who], v)
  {
  }

  lemma HandOverKeepsCore(s: State, who: Who, tid: nat, v: View)
    requires Core(s) && who in s.owners && Thread(tid) !in s.owners && Fits(s, s.owners[who], v) && Sane(v)
    ensures Core(HandOverStep(s, who, tid, s.owners[who].e, v))
  {
    hide AllSane, Sane, Holding, NoneLeft, Distinct, IdsSeen;
    assert s.owners[who].e in s.execs;
    hide Owned;
    PassOnKeepsCore(s, who, tid);
    PassOnFits(s, who, tid, v);
    HandOverIsPut(s, who, tid, s.owners[who].e, v);
    hide Core, Listed, Fits, Put, HandOverStep;
    PutKeepsCore(PassOn(s, who, tid), Thread(tid), v);
  }

  lemma OwnKeepsCore(s: State, who: Who, c: Choice, tid: nat)
    requires Core(s)
    ensures Core(OwnStep(s, who, c, tid))
  {
    if who in s.owners {
      var o := s.owners[who];
      assert SaneAt(s, o);
      var v := ViewOf(s, o);
      if v.pc.Unregister? {
        UnregisterKeepsCore(s, who);
      } else if !Blocked(v) {
        hide Owned, AllSane, Holding, NoneLeft, Distinct, IdsSeen, Sane, SaneAt, Move;
        MoveFits(s, o, c);
        hide Listed, Fits;
        if HandsOver(v, c) {
          if Thread(tid) !in s.owners { HandOverKeepsCore(s, who, tid, Move(v, c)); }
        } else {
          PutKeepsCore(s, who, Move(v, c));
        }
      }
      hide Core;
    }
  }

  // ---- shutdown

  lemma SweepOneKeepsCore(s: State, e: ExecId)
    requires Core(s) && e in s.execs
    ensures Core(SweepOne(s, e))
  {
    var w :| Owns(s, w, e);
    var o := s.owners[w];
    assert SaneAt(s, o);
    hide Owned, AllSane, Holding, NoneLeft, Distinct, IdsSeen, Sane;
    var v := ShutDown(ViewOf(s, o));
    ShutDownKeepsSane(ViewOf(s, o));
    SweepFits(s, o);
    hide Listed;
    WriteKeepsCore(s, w, v);
  }

  lemma SweepFits(s: State, o: Owner)
    requires Listed(s) && o.e in s.execs
    ensures Fits(s, o, ShutDown(ViewOf(s, o))) && SweepOne(s, o.e) == Write(s, o.e, ShutDown(ViewOf(s, o)))
  {
    hide Ends;
  }

  /** Nobody joins or leaves, no thread moves, and no request is forgotten. */
  ghost predicate Swept(s: State, t: State) {
    && t == s.(execs := t.execs, procs := t.procs, db := t.db, held := t.held)
    && t.execs.Keys == s.execs.Keys
    && forall e :: e in s.execs && s.execs[e].requested ==> t.execs[e] == s.execs[e]
  }

  lemma SweepOneAsks(s: State, e: ExecId)
    requires Listed(s) && e in s.execs
    ensures Swept(s, SweepOne(s, e)) && SweepOne(s, e).execs[e].requested
  {
    hide Ends, Kill;
  }

  lemma SweptTwice(s: State, t: State, u: State)
    requires Swept(s, t) && Swept(t, u)
    ensures Swept(s, u)
  {
  }

  /** Everything on the list is asked to stop. */
  lemma {:induction false} SweepKeepsCore(s: State, ids: seq<ExecId>)
    requires Core(s) && forall e :: e in ids ==> e in s.execs
    ensures var t := Sweep(s, ids); Core(t) && Swept(s, t) && forall e :: e in ids ==> t.execs[e].requested
    decreases |ids|
  {
    if |ids| > 0 {
      var u := SweepOne(s, ids[0]);
      SweepOneKeepsCore(s, ids[0]);
      SweepOneAsks(s, ids[0]);
      hide Core, SweepOne;
      assert forall e :: e in ids[1..] ==> e in u.execs;
      SweepKeepsCore(u, ids[1..]);
      SweptTwice(s, u, Sweep(u, ids[1..]));
      assert forall e :: e in ids ==> e == ids[0] || e in ids[1..];
    }
  }
}
