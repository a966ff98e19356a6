// LostCancellations: whole runs of the executor, from a fresh start to the freed execution, in which a cancellation is lost.

module LostCancellations {
  import opened Wrappers
  import opened Jobs
  import opened Execution
  import opened Executor

  const YES := Choice(true, true)

  /** The state in which `j`, the only job ever executed since the fresh start `s`, has come to `v`. */
  function Alone(s: State, j: Id, who: Who, v: View): State {
    State([0], map[0 := v.exec], map[0 := v.proc], map[who := Owner(0, v.pc)], multiset{},
          if who.Scheduler? then Busy else Idle, false, if v.holds then {j} else {},
          if v.row.Some? then s.db[j := v.row.value] else s.db - {j}, s.seen + {j}, 1)
  }

  predicate Lone(j: Id, v: View) { v.exec.job == j && v.row.Some? && !v.pending && !v.pc.Unregister? }

  lemma AloneView(s: State, j: Id, who: Who, v: View)
    requires v.exec.job == j && v.row.Some? && !v.pending
    ensures ViewOf(Alone(s, j, who, v), Owner(0, v.pc)) == v
  {
  }

  lemma AloneWrite(s: State, t: State, j: Id, v: View, w: View, who: Who)
    requires v.exec.job == w.exec.job == j && v.row.Some? && w.row.Some? && (w.holds ==> v.holds)
    requires t == Alone(s, j, who, v).(owners := t.owners, sched := t.sched)
    ensures Write(t, 0, w) == Alone(s, j, who, w).(owners := t.owners, sched := t.sched)
  {
    assert t.execs[0 := w.exec] == map[0 := w.exec];
    assert t.procs[0 := w.proc] == map[0 := w.proc];
    assert t.db[j := w.row.value] == s.db[j := w.row.value];
    assert {j} - {j} == {};
  }

  lemma AlonePut(s: State, j: Id, who: Who, v: View, w: View)
    requires v.exec.job == w.exec.job == j && v.row.Some? && w.row.Some? && (w.holds ==> v.holds)
    ensures Put(Alone(s, j, who, v), who, 0, w) == Alone(s, j, who, w)
  {
    var t := Alone(s, j, who, v);
    AloneWrite(s, t, j, v, w, who);
    hide Write;
    assert t.owners[who := Owner(0, w.pc)] == map[who := Owner(0, w.pc)];
  }

  lemma AlonePutNext(s: State, j: Id, who: Who, tid: nat, v: View, w: View)
    requires v.exec.job == w.exec.job == j && v.row.Some? && w.row.Some? && (w.holds ==> v.holds)
    ensures Put(Leave(Alone(s, j, who, v), who), Thread(tid), 0, w) == Alone(s, j, Thread(tid), w)
  {
    var t := Leave(Alone(s, j, who, v), who);
    AloneWrite(s, t, j, v, w, who);
    hide Write;
    assert t.owners[Thread(tid) := Owner(0, w.pc)] == map[Thread(tid) := Owner(0, w.pc)];
  }

  /** A move of the lone owner in the protocol is a move of its view. */
  lemma AloneMoves(s: State, j: Id, who: Who, v: View, c: Choice, tid: nat)
    requires Lone(j, v) && !Blocked(v) && !HandsOver(v, c)
    ensures Step(Alone(s, j, who, v), Own(who, c, tid)) == Alone(s, j, who, Move(v, c))
    ensures Move(v, c).exec.job == j && Move(v, c).row.Some? && !Move(v, c).pending
  {
    AloneView(s, j, who, v);
    MoveKeepsJob(v, c);
    MoveKeepsRow(v, c);
    hide Move, Blocked, ViewOf, HandsOver;
    AlonePut(s, j, who, v, Move(v, c));
    hide Put, Leave;
  }

  lemma AloneHandsOver(s: State, j: Id, who: Who, v: View, c: Choice, tid: nat)
    requires Lone(j, v) && !Blocked(v) && HandsOver(v, c) && who != Thread(tid)
    ensures Step(Alone(s, j, who, v), Own(who, c, tid)) == Alone(s, j, Thread(tid), Move(v, c))
    ensures Move(v, c).exec.job == j && Move(v, c).row.Some? && !Move(v, c).pending
  {
    AloneView(s, j, who, v);
    MoveKeepsJob(v, c);
    MoveKeepsRow(v, c);
    hide Move, Blocked, ViewOf, HandsOver;
    AlonePutNext(s, j, who, tid, v, Move(v, c));
    hide Put, Leave;
  }

  lemma AskedAnywhere(v: View, pc: Pc, status: Status, reason: string)
    ensures Requested(v.(pc := pc), status, reason) == Requested(v, status, reason).(pc := pc)
    ensures var w := Requested(v, status, reason);
      w.exec.job == v.exec.job && (w.row.Some? <==> v.row.Some?) && w.holds == v.holds && w.pc == v.pc
      && (!v.exec.pid ==> w.pending == v.pending)
  {
    hide Ends;
  }

  lemma AloneFound(s: State, j: Id, who: Who, v: View)
    requires v.exec.job == j && v.row.Some? && !v.pending
    ensures var t := Alone(s, j, who, v);
      FirstWith(t, t.active, j) == Some(0) && ViewOf(t, Owner(0, Registered)) == v.(pc := Registered)
  {
    var t := Alone(s, j, who, v);
    assert t.active[0] == 0;
  }

  lemma AloneAsked(s: State, j: Id, who: Who, v: View, reason: string)
    requires Lone(j, v) && !v.exec.pid
    ensures Step(Alone(s, j, who, v), Cancel(j, reason)) == Alone(s, j, who, Requested(v, Cancelled, reason))
    ensures Lone(j, Requested(v, Cancelled, reason))
  {
    hide Requested, FirstWith, ViewOf;
    var t := Alone(s, j, who, v);
    AskedAnywhere(v, Registered, Cancelled, reason);
    AloneFound(s, j, who, v);
    AloneWrite(s, t, j, v, Requested(v.(pc := Registered), Cancelled, reason), who);
    hide Write;
  }

  lemma AloneRowCancelled(s: State, j: Id, who: Who, v: View)
    requires Lone(j, v) && v.row == Some(Queued)
    ensures Step(Alone(s, j, who, v), Row(j, CancelRow)) == Alone(s, j, who, RowCancelled(v))
  {
    var t := Alone(s, j, who, v);
    assert t.db[j := Cancelled] == s.db[j := Cancelled];
  }

  lemma AloneExits(s: State, j: Id, who: Who, v: View)
    requires v.proc == Alive
    ensures Step(Alone(s, j, who, v), ProcExit(0)) == Alone(s, j, who, v.(proc := Exited))
  {
  }

  predicate NothingLeft(t: State) { t.active == [] && t.execs == map[] && t.owners == map[] && t.held == {} }

  lemma AloneLeaves(s: State, j: Id, who: Who, v: View)
    requires v.exec.job == j && v.row.Some? && !v.pending && v.pc.Unregister? && !v.holds
    ensures var t := Step(Alone(s, j, who, v), Own(who, YES, 0)); NothingLeft(t) && RowOf(t, j) == v.row
  {
    AloneView(s, j, who, v);
    var t := Alone(s, j, who, v);
    assert t.active[0] == 0;
    assert Without(t.active, 0) == [];
    assert t.owners - {who} == map[];
    assert t.execs - {0} == map[];
  }

  lemma RunMore(s: State, acts: seq<Action>, a: Action)
    ensures Run(s, acts + [a]) == Step(Run(s, acts), a)
  {
    hide Step;
    assert (acts + [a])[..|acts|] == acts;
  }

  function StartOf(j: Id): View {
    View(Exec(j, false, Queued, "", false, Queued, false), NotStarted, Registered, true, Some(Queued), false)
  }

  /** A job is submitted, picked and registered. */
  lemma Spawned(s: State, j: Id) returns (acts: seq<Action>)
    requires Fresh(s) && j !in s.seen
    ensures Run(s, acts) == Alone(s, j, Scheduler, StartOf(j)) && Lone(j, StartOf(j))
  {
    var a, b, c, d := Row(j, Submit(false)), Pick(j), Dispatch, Register;
    var s1 := Step(s, a);
    assert s1 == s.(seen := s.seen + {j}, db := s.db[j := Queued]);
    var s2 := Step(s1, b);
    assert s2 == s1.(sched := Reserved(j), held := {j});
    var s3 := Step(s2, c);
    assert s3 == s2.(sched := Admitted(j));
    assert Step(s3, d) == Alone(s, j, Scheduler, StartOf(j));
    hide Step;
    var none: seq<Action> := [];
    assert Run(s, none) == s;
    RunMore(s, none, a);
    RunMore(s, none + [a], b);
    RunMore(s, none + [a] + [b], c);
    RunMore(s, none + [a] + [b] + [c], d);
    acts := none + [a] + [b] + [c] + [d];
  }

  /** One more move of the owner. */
  lemma Further(s: State, acts: seq<Action>, j: Id, who: Who, v: View) returns (more: seq<Action>, w: View)
    requires Run(s, acts) == Alone(s, j, who, v) && Lone(j, v) && !Blocked(v) && !HandsOver(v, YES)
    ensures w == Move(v, YES) && Run(s, more) == Alone(s, j, who, w) && w.exec.job == j && w.row.Some? && !w.pending
    ensures forall a :: a in acts ==> a in more
  {
    hide Step, Run, Move, Alone;
    w := Move(v, YES);
    more := acts + [Own(who, YES, 0)];
    RunMore(s, acts, Own(who, YES, 0));
    AloneMoves(s, j, who, v, YES, 0);
  }

  lemma HandedOver(s: State, acts: seq<Action>, j: Id, who: Who, v: View, tid: nat) returns (more: seq<Action>, w: View)
    requires Run(s, acts) == Alone(s, j, who, v) && Lone(j, v) && !Blocked(v) && HandsOver(v, YES) && who != Thread(tid)
    ensures w == Move(v, YES) && Run(s, more) == Alone(s, j, Thread(tid), w) && w.exec.job == j && w.row.Some? && !w.pending
    ensures forall a :: a in acts ==> a in more
  {
    hide Step, Run, Move, Alone;
    w := Move(v, YES);
    more := acts + [Own(who, YES, tid)];
    RunMore(s, acts, Own(who, YES, tid));
    AloneHandsOver(s, j, who, v, YES, tid);
  }

  /** The owner leaves. */
  lemma Over(s: State, acts: seq<Action>, j: Id, who: Who, v: View) returns (more: seq<Action>)
    requires Run(s, acts) == Alone(s, j, who, v)
    requires v.exec.job == j && v.row.Some? && !v.pending && v.pc.Unregister? && !v.holds
    ensures var t := Run(s, more); NothingLeft(t) && RowOf(t, j) == v.row
    ensures forall a :: a in acts ==> a in more
  {
    hide Step, Run, Alone;
    more := acts + [Own(who, YES, 0)];
    RunMore(s, acts, Own(who, YES, 0));
    AloneLeaves(s, j, who, v);
  }

  /** From a decided end to the end. */
  lemma Closing(s: State, acts: seq<Action>, j: Id, who: Who, v: View) returns (more: seq<Action>)
    requires Run(s, acts) == Alone(s, j, who, v) && Lone(j, v) && v.pc.Release?
    ensures var t := Run(s, more); NothingLeft(t) && RowOf(t, j) == v.row
    ensures forall a :: a in acts ==> a in more
  {
    hide Run, Alone;
    var w;
    more, w := Further(s, acts, j, who, v);
    more := Over(s, more, j, who, w);
  }

  /** The owner has looked at the row. */
  lemma Looked(s: State, j: Id) returns (acts: seq<Action>, v: View)
    requires Fresh(s) && j !in s.seen
    ensures Run(s, acts) == Alone(s, j, Scheduler, v) && v == StartOf(j).(pc := Checked)
  {
    hide Run, Alone;
    acts := Spawned(s, j);
    acts, v := Further(s, acts, j, Scheduler, StartOf(j));
  }

  predicate RunningAt(v: View, j: Id, pc: Pc, p: Proc) {
    v == View(Exec(j, false, Queued, "", v.exec.pid, Running, false), p, pc, true, Some(Running), false)
  }

  /** The first half of CancelledButRunning: the request has fallen between the two writes. */
  lemma AskedBetween(s: State, j: Id, reason: string) returns (acts: seq<Action>, v: View)
    requires Fresh(s) && j !in s.seen
    ensures Cancel(j, reason) in acts && Run(s, acts) == Alone(s, j, Scheduler, v)
    ensures v == View(Exec(j, true, Cancelled, reason, false, Cancelled, false), NotStarted, Marked, true, Some(Cancelled), false)
  {
    acts, v := Looked(s, j);
    hide Run, Alone, Step;
    acts, v := Further(s, acts, j, Scheduler, v);
    assert RunningAt(v, j, Marked, NotStarted) && !v.exec.pid;
    var before := acts;
    acts := before + [Cancel(j, reason)];
    RunMore(s, before, Cancel(j, reason));
    AloneAsked(s, j, Scheduler, v, reason);
    v := Requested(v, Cancelled, reason);
    assert acts[|before|] == Cancel(j, reason);
  }

  /** From a fresh start, for any job: a cancellation between the two writes that start it ends its execution, and leaves
      a RUNNING row with nothing behind it. */
  lemma CancelledButRunning(s: State, j: Id, reason: string) returns (acts: seq<Action>)
    requires Fresh(s) && j !in s.seen
    ensures Cancel(j, reason) in acts && NothingLeft(Run(s, acts)) && RowOf(Run(s, acts), j) == Some(Running)
  {
    hide Run, Alone, Step, NothingLeft;
    var v;
    acts, v := AskedBetween(s, j, reason);
    acts, v := Further(s, acts, j, Scheduler, v);
    assert v.pc == Persisted && v.row == Some(Running) && v.exec.requested;
    acts, v := HandedOver(s, acts, j, Scheduler, v, 0);
    acts, v := Further(s, acts, j, Thread(0), v);
    assert v.pc.FSnapshot? && v.row == Some(Running) && v.exec.requested && v.exec.jobStatus == Cancelled;
    acts, v := Further(s, acts, j, Thread(0), v);
    acts, v := Further(s, acts, j, Thread(0), v);
    acts := Closing(s, acts, j, Thread(0), v);
  }

  /** The row is cancelled behind the back of an owner that has looked at it, and the owner starts the process. */
  lemma RowCancelledTooLate(s: State, j: Id) returns (acts: seq<Action>, v: View)
    requires Fresh(s) && j !in s.seen
    ensures Row(j, CancelRow) in acts && Run(s, acts) == Alone(s, j, Thread(0), v) && RunningAt(v, j, LStart, NotStarted)
  {
    acts, v := Looked(s, j);
    hide Run, Alone, Step;
    var before := acts;
    acts := before + [Row(j, CancelRow)];
    RunMore(s, before, Row(j, CancelRow));
    AloneRowCancelled(s, j, Scheduler, v);
    v := RowCancelled(v);
    assert acts[|before|] == Row(j, CancelRow);
    acts, v := Further(s, acts, j, Scheduler, v);
    assert RunningAt(v, j, Marked, NotStarted);
    acts, v := Further(s, acts, j, Scheduler, v);
    assert RunningAt(v, j, Persisted, NotStarted);
    acts, v := HandedOver(s, acts, j, Scheduler, v, 0);
  }

  lemma ProcessEnds(s: State, acts: seq<Action>, j: Id, v: View) returns (more: seq<Action>, w: View)
    requires Run(s, acts) == Alone(s, j, Thread(0), v) && RunningAt(v, j, LStart, NotStarted)
    ensures (forall a :: a in acts ==> a in more)
    ensures Run(s, more) == Alone(s, j, Thread(1), w) && RunningAt(w, j, Watching, Exited)
  {
    hide Run, Alone, Step;
    more, w := Further(s, acts, j, Thread(0), v);
    assert RunningAt(w, j, Launching, NotStarted);
    more, w := Further(s, more, j, Thread(0), w);
    assert RunningAt(w, j, Forked, Alive);
    more, w := Further(s, more, j, Thread(0), w);
    assert RunningAt(w, j, Published, Alive);
    more, w := HandedOver(s, more, j, Thread(0), w, 1);
    var before := more;
    more := before + [ProcExit(0)];
    RunMore(s, before, ProcExit(0));
    AloneExits(s, j, Thread(1), w);
    w := w.(proc := Exited);
  }

  /** From a fresh start, for any job: a cancellation that finds neither a queued job nor an execution and cancels the row
      is forgotten once the execution marks the job as running; here the job goes on to succeed. */
  lemma CancelledButSucceeded(s: State, j: Id) returns (acts: seq<Action>)
    requires Fresh(s) && j !in s.seen
    ensures Row(j, CancelRow) in acts && NothingLeft(Run(s, acts)) && RowOf(Run(s, acts), j) == Some(Succeeded)
  {
    hide Run, Alone, Step, NothingLeft;
    var v;
    acts, v := RowCancelledTooLate(s, j);
    acts, v := ProcessEnds(s, acts, j, v);
    acts, v := Further(s, acts, j, Thread(1), v);
    assert RunningAt(v, j, WReaped(true), Reaped);
    acts, v := Further(s, acts, j, Thread(1), v);
    assert RunningAt(v, j, WCleared(true), Reaped);
    acts, v := Further(s, acts, j, Thread(1), v);
    acts, v := Further(s, acts, j, Thread(1), v);
    assert v.pc == Release && v.row == Some(Succeeded);
    acts := Closing(s, acts, j, Thread(1), v);
  }
}
