// Workflows: submission of a list of steps whose dependencies point to earlier steps, and their completion.

module Workflows {
  import opened Wrappers
  import opened Jobs
  import opened Quotas
  import opened Lifecycle
  import opened Runs

  /** What a submission gives for one step; `job` is the job with everything but its dependencies and status. */
  datatype StepDef = StepDef(job: Job, dependsOnSteps: seq<real>)

  const MAX_WORKFLOW_STEPS := 64
  const DEPENDS_ON_CAPACITY := 2048

  /** An index is accepted when it is a whole number of a step already read. */
  predicate ValidIndex(v: real, created: nat) { v == v.Floor as real && 0 <= v.Floor < created }

  /** Length of the comma-separated list, as append_csv_value measures it. */
  function CsvLength(ids: seq<Id>): nat {
    if |ids| == 0 then 0
    else
      var before := CsvLength(ids[..|ids| - 1]);
      before + (if before > 0 then 1 else 0) + |ids[|ids| - 1]|
  }

  /** A list fits if it and every list it was appended to leave room for the final NUL. */
  predicate CsvFits(ids: seq<Id>) { CsvLength(ids) + 1 <= DEPENDS_ON_CAPACITY }

  function Named(steps: seq<StepDef>, deps: seq<real>): seq<Id>
    requires forall i :: 0 <= i < |deps| ==> ValidIndex(deps[i], |steps|)
  {
    seq(|deps|, i requires 0 <= i < |deps| && ValidIndex(deps[i], |steps|) => steps[deps[i].Floor].job.id)
  }

  predicate StepAccepted(steps: seq<StepDef>, k: nat)
    requires k < |steps|
  {
    && (forall i :: 0 <= i < |steps[k].dependsOnSteps| ==> ValidIndex(steps[k].dependsOnSteps[i], k))
    && CsvFits(Named(steps[..k], steps[k].dependsOnSteps))
  }

  lemma {:induction false} CsvGrows(ids: seq<Id>, n: nat)
    requires n <= |ids|
    ensures CsvLength(ids[..n]) <= CsvLength(ids)
  {
    if n < |ids| {
      CsvGrows(ids[..|ids| - 1], n);
      assert ids[..|ids| - 1][..n] == ids[..n];
    } else {
      assert ids[..n] == ids;
    }
  }

  /** One more entry of the list. */
  lemma OneMore(steps: seq<StepDef>, deps: seq<real>, i: nat)
    requires i < |deps| && ValidIndex(deps[i], |steps|) && forall m :: 0 <= m < i ==> ValidIndex(deps[m], |steps|)
    ensures var list, id := Named(steps, deps[..i]), steps[deps[i].Floor].job.id;
      && Named(steps, deps[..i + 1]) == list + [id]
      && CsvLength(list + [id]) == CsvLength(list) + (if CsvLength(list) > 0 then 1 else 0) + |id|
  {
    var list, id := Named(steps, deps[..i]), steps[deps[i].Floor].job.id;
    assert Named(steps, deps[..i + 1]) == list + [id];
    assert (list + [id])[..|list|] == list;
  }

  /** What does not fit so far will not fit in the end. */
  lemma TooLong(steps: seq<StepDef>, deps: seq<real>, i: nat)
    requires i <= |deps| && (forall m :: 0 <= m < |deps| ==> ValidIndex(deps[m], |steps|)) && !CsvFits(Named(steps, deps[..i]))
    ensures !CsvFits(Named(steps, deps))
  {
    CsvGrows(Named(steps, deps), i);
    assert Named(steps, deps)[..i] == Named(steps, deps[..i]);
  }

  /** The dependency list of one step, or an error. */
  method ReadDependencies(steps: seq<StepDef>, k: nat) returns (r: Option<seq<Id>>)
    requires k < |steps|
    ensures r.Some? <==> StepAccepted(steps, k)
    ensures r.Some? ==> r.value == Named(steps[..k], steps[k].dependsOnSteps)
  {
    hide Named, CsvLength;
    var deps := steps[k].dependsOnSteps;
    var list: seq<Id> := [];
    var used := 0;
    NothingNamed(steps[..k], deps[..0]);
    for i := 0 to |deps|
      invariant forall m :: 0 <= m < i ==> ValidIndex(deps[m], k)
      invariant list == Named(steps[..k], deps[..i]) && used == CsvLength(list) && CsvFits(list)
    {
      var index := deps[i].Floor;
      if index < 0 || index >= k || index as real != deps[i] {
        assert !ValidIndex(deps[i], k);
        return None;
      }
      var value := steps[index].job.id;
      OneMore(steps[..k], deps, i);
      var separator := if used > 0 then 1 else 0;
      if used + separator + |value| + 1 > DEPENDS_ON_CAPACITY {
        if forall m :: 0 <= m < |deps| ==> ValidIndex(deps[m], k) { TooLong(steps[..k], deps, i + 1); }
        return None;
      }
      list := list + [value];
      used := used + separator + |value|;
    }
    assert deps[..|deps|] == deps;
    r := Some(list);
  }

  lemma NothingNamed(steps: seq<StepDef>, deps: seq<real>)
    requires |deps| == 0
    ensures Named(steps, deps) == [] && CsvLength(Named(steps, deps)) == 0
  {
  }

  /** The text of the list: the ids with commas between them. */
  function Csv(ids: seq<Id>): string {
    if |ids| == 0 then "" else if |ids| == 1 then ids[0] else Csv(ids[..|ids| - 1]) + "," + ids[|ids| - 1]
  }

  lemma {:induction false} CsvCounts(ids: seq<Id>)
    requires forall i :: 0 <= i < |ids| ==> ids[i] != ""
    ensures CsvLength(ids) == |Csv(ids)| && (|ids| > 0 ==> CsvLength(ids) > 0)
  {
    if |ids| > 0 {
      CsvCounts(ids[..|ids| - 1]);
      var none := ids[..0];
      assert |none| == 0 && CsvLength(none) == 0;
      if |ids| == 1 { assert ids[..|ids| - 1] == none; }
    }
  }

  /** When a step is accepted: its dependencies are whole numbers of earlier steps, and their ids with commas between them
      fit a buffer of 2048 bytes with its NUL. */
  lemma AcceptedMeans(steps: seq<StepDef>, k: nat)
    requires k < |steps| && forall m :: 0 <= m < |steps| ==> steps[m].job.id != ""
    ensures var deps := steps[k].dependsOnSteps;
      StepAccepted(steps, k) <==>
        && (forall i :: 0 <= i < |deps| ==> deps[i] == deps[i].Floor as real && 0 <= deps[i].Floor < k)
        && |Csv(seq(|deps|, i requires 0 <= i < |deps| =>
             if 0 <= deps[i].Floor < k then steps[deps[i].Floor].job.id else ""))| < 2048
  {
    var deps := steps[k].dependsOnSteps;
    var ids := seq(|deps|, i requires 0 <= i < |deps| => if 0 <= deps[i].Floor < k then steps[deps[i].Floor].job.id else "");
    if forall i :: 0 <= i < |deps| ==> ValidIndex(deps[i], k) {
      assert ids == Named(steps[..k], deps);
      CsvCounts(ids);
    }
    hide CsvLength, Csv;
  }

  /** The job created for step `k`: held when it waits for something. */
  function StepJob(steps: seq<StepDef>, k: nat): Job
    requires k < |steps| && StepAccepted(steps, k)
  {
    var deps := Named(steps[..k], steps[k].dependsOnSteps);
    steps[k].job.(dependsOn := deps, status := if deps != [] || steps[k].job.inputFiles != [] then Created else Queued)
  }

  predicate AllAccepted(steps: seq<StepDef>) {
    1 <= |steps| <= MAX_WORKFLOW_STEPS && forall k :: 0 <= k < |steps| ==> StepAccepted(steps, k)
  }

  lemma EdgeIsEarlier(steps: seq<StepDef>, k: nat, d: Id)
    requires k < |steps| && StepAccepted(steps, k) && d in StepJob(steps, k).dependsOn
    ensures exists m :: 0 <= m < k && steps[m].job.id == d
  {
    var deps := steps[k].dependsOnSteps;
    var i :| 0 <= i < |deps| && Named(steps[..k], deps)[i] == d;
    assert ValidIndex(deps[i], k) && steps[deps[i].Floor].job.id == d;
  }

  /** The job of a step on the fields: held exactly when it waits for a step or for a file, and queued otherwise; it depends
      on the jobs of the steps named, in their order; everything else is as it was given. */
  lemma StepJobMeans(steps: seq<StepDef>, k: nat)
    requires k < |steps| && StepAccepted(steps, k)
    ensures var j, given, deps := StepJob(steps, k), steps[k].job, steps[k].dependsOnSteps;
      && (j.status == Created <==> |deps| > 0 || |given.inputFiles| > 0)
      && (j.status == Queued <==> |deps| == 0 && |given.inputFiles| == 0)
      && |j.dependsOn| == |deps|
      && (forall i :: 0 <= i < |deps| ==>
            0 <= deps[i].Floor < k && deps[i] == deps[i].Floor as real && j.dependsOn[i] == steps[deps[i].Floor].job.id)
      && j == given.(dependsOn := j.dependsOn, status := j.status)
  {
    hide CsvFits;
    forall i | 0 <= i < |steps[k].dependsOnSteps| ensures ValidIndex(steps[k].dependsOnSteps[i], k) { }
    assert forall i :: 0 <= i < k ==> steps[..k][i] == steps[i];
  }

  /** Every dependency of a step's job is the job of an earlier step. */
  ghost predicate PointsBack(jobs: seq<Job>) {
    forall k :: 0 <= k < |jobs| ==> forall d :: d in jobs[k].dependsOn ==> exists m :: 0 <= m < k && jobs[m].id == d
  }

  lemma AcceptedPointBack(steps: seq<StepDef>, jobs: seq<Job>)
    requires AllAccepted(steps) && |jobs| == |steps| && forall k :: 0 <= k < |steps| ==> jobs[k] == StepJob(steps, k)
    ensures PointsBack(jobs)
  {
    forall k, d | 0 <= k < |jobs| && d in jobs[k].dependsOn ensures exists m :: 0 <= m < k && jobs[m].id == d {
      EdgeIsEarlier(steps, k, d);
      var m :| 0 <= m < k && steps[m].job.id == d;
      assert jobs[m] == StepJob(steps, m);
    }
  }

  // ---------------------------------------------------------------- completion

  /** Held steps wait for no file, and only for earlier steps. */
  ghost predicate Waits(rows: map<Id, Job>, w: seq<Id>) {
    forall k :: 0 <= k < |w| && StatusOf(rows, w[k]) == Some(Created) ==>
      rows[w[k]].inputFiles == [] && forall d :: d in rows[w[k]].dependsOn ==> d in w[..k]
  }

  /** The jobs of an accepted submission wait for earlier steps only. */
  lemma SubmittedWaits(steps: seq<StepDef>, rows: map<Id, Job>, w: seq<Id>)
    requires AllAccepted(steps) && |w| == |steps|
    requires forall k :: 0 <= k < |w| ==> w[k] == steps[k].job.id && w[k] in rows && rows[w[k]] == StepJob(steps, k)
    requires forall k :: 0 <= k < |steps| ==> steps[k].job.inputFiles == []
    ensures Waits(rows, w)
  {
    forall k, d | 0 <= k < |w| && d in rows[w[k]].dependsOn ensures d in w[..k] {
      EdgeIsEarlier(steps, k, d);
      var m :| 0 <= m < k && steps[m].job.id == d;
      assert w[..k][m] == d;
    }
  }

  /** A held-job pass from `s` to `u`, and then `t`: by then every released step has finished, and held ones are as they were. */
  ghost predicate Round(qt: QuotaTable, s: State, t: State, w: seq<Id>) {
    exists acts :: IsPass(s, acts, w) && Between(Run(qt, s, acts), t, w)
  }

  ghost predicate Between(u: State, t: State, w: seq<Id>) {
    Inv(t) && forall i :: i in w ==>
      if StatusOf(u.rows, i) == Some(Created) then RowOf(t, i) == RowOf(u, i) else Settled(t.rows, i)
  }

  ghost predicate SettledUpTo(rows: map<Id, Job>, w: seq<Id>, n: nat)
    requires n <= |w|
  {
    forall k :: 0 <= k < n ==> Settled(rows, w[k])
  }

  /** A row that is still held after a pass has not changed in it. */
  lemma HeldUnchanged(qt: QuotaTable, s: State, acts: seq<Action>, i: Id)
    requires Inv(s) && OnlyHeldChecks(acts)
    requires StatusOf(Run(qt, s, acts).rows, i) == Some(Created)
    requires StatusOf(s.rows, i) == Some(Created) ==> s.rows[i].inputFiles == []
    ensures StatusOf(s.rows, i) == Some(Created) && Run(qt, s, acts).rows[i].inputFiles == []
    ensures forall d :: d in Run(qt, s, acts).rows[i].dependsOn ==> d in s.rows[i].dependsOn
    decreases |acts|
  {
    if |acts| > 0 {
      var before := acts[..|acts| - 1];
      var u := Run(qt, s, before);
      var a := acts[|acts| - 1];
      if StatusOf(s.rows, i) != Some(Created) {
        PassLeaves(qt, s, acts, i);
      } else {
        PassKeepsInv(qt, s, before);
        if StatusOf(u.rows, i) == Some(Created) {
          HeldUnchanged(qt, s, before, i);
          if a.id == i { HeldOutcome(qt, u, a); } else { OtherRows(qt, u, a, i); }
        } else {
          CheckHeldLeaves(qt, u, a, i);
        }
      }
      hide Step, Inv, Settled;
    }
  }

  lemma {:induction false} PassKeepsInv(qt: QuotaTable, s: State, acts: seq<Action>)
    requires Inv(s)
    ensures Inv(Run(qt, s, acts))
  {
    if |acts| > 0 {
      PassKeepsInv(qt, s, acts[..|acts| - 1]);
      hide Step, Inv;
      StepKeepsInv(qt, Run(qt, s, acts[..|acts| - 1]), acts[|acts| - 1]);
    }
  }

  /** Each round settles at least one more step. */
  lemma RoundAdvances(qt: QuotaTable, s: State, t: State, w: seq<Id>, n: nat)
    requires Inv(s) && n <= |w| && Waits(s.rows, w) && SettledUpTo(s.rows, w, n) && Round(qt, s, t, w)
    ensures Inv(t) && Waits(t.rows, w) && SettledUpTo(t.rows, w, if n < |w| then n + 1 else n)
  {
    hide Run;
    var acts :| IsPass(s, acts, w) && Between(Run(qt, s, acts), t, w);
    var u := Run(qt, s, acts);
    hide Inv, Settled, IsPass;
    assert IsPass(s, acts, w);
    forall k | 0 <= k < |w| && StatusOf(t.rows, w[k]) == Some(Created)
      ensures t.rows[w[k]].inputFiles == [] && forall d :: d in t.rows[w[k]].dependsOn ==> d in w[..k]
    {
      StillHeld(qt, s, acts, t, w, k);
    }
    forall k | 0 <= k < |w| && k <= n ensures Settled(t.rows, w[k]) { StepSettles(qt, s, acts, t, w, n, k); }
  }

  lemma StillHeld(qt: QuotaTable, s: State, acts: seq<Action>, t: State, w: seq<Id>, k: nat)
    requires Inv(s) && Waits(s.rows, w) && IsPass(s, acts, w) && Between(Run(qt, s, acts), t, w)
    requires k < |w| && StatusOf(t.rows, w[k]) == Some(Created)
    ensures t.rows[w[k]].inputFiles == [] && forall d :: d in t.rows[w[k]].dependsOn ==> d in w[..k]
  {
    hide Run, Inv;
    assert w[k] in w;
    HeldUnchanged(qt, s, acts, w[k]);
  }

  lemma StepSettles(qt: QuotaTable, s: State, acts: seq<Action>, t: State, w: seq<Id>, n: nat, k: nat)
    requires Inv(s) && Waits(s.rows, w) && IsPass(s, acts, w) && Between(Run(qt, s, acts), t, w)
    requires k < |w| && k <= n <= |w| && SettledUpTo(s.rows, w, n)
    ensures Settled(t.rows, w[k])
  {
    hide Run, Inv;
    assert w[k] in w;
    if StatusOf(s.rows, w[k]) == Some(Created) {
      forall d | d in s.rows[w[k]].dependsOn ensures Settled(s.rows, d) {
        assert d in w[..k];
        var m :| 0 <= m < k && w[..k][m] == d;
        assert Settled(s.rows, w[m]);
      }
      PassDecides(qt, s, acts, w[k]);
    } else {
      PassLeaves(qt, s, acts, w[k]);
    }
  }

  ghost predicate Rounds(qt: QuotaTable, states: seq<State>, w: seq<Id>) {
    forall r :: 0 <= r < |states| - 1 ==> Round(qt, states[r], states[r + 1], w)
  }

  lemma {:induction false} RoundsAdvance(qt: QuotaTable, states: seq<State>, w: seq<Id>, n: nat)
    requires n < |states| && n <= |w| && Inv(states[0]) && Waits(states[0].rows, w) && Rounds(qt, states, w)
    ensures Inv(states[n]) && Waits(states[n].rows, w) && SettledUpTo(states[n].rows, w, n)
  {
    hide Round, Inv, Waits;
    if n > 0 {
      RoundsAdvance(qt, states, w, n - 1);
      assert Round(qt, states[n - 1], states[n - 1 + 1], w);
      hide SettledUpTo, Rounds;
      RoundAdvances(qt, states[n - 1], states[n], w, n - 1);
    }
  }

  /** After as many held-job passes as there are steps, if what was released always finished before the next pass, no
      step is CREATED: each has finished, or has been marked FAILED, or is gone. */
  lemma WorkflowCompletes(qt: QuotaTable, states: seq<State>, w: seq<Id>, k: nat)
    requires |states| == |w| + 1 && k < |w| && Inv(states[0]) && Waits(states[0].rows, w) && Rounds(qt, states, w)
    ensures Settled(states[|w|].rows, w[k]) && StatusOf(states[|w|].rows, w[k]) != Some(Created)
  {
    RoundsAdvance(qt, states, w, |w|);
    hide Round, Rounds, Inv, Waits;
  }

  // ---------------------------------------------------------------- order

  /** All of `deps` have succeeded. */
  ghost predicate Met(rows: map<Id, Job>, deps: seq<Id>) { forall d :: d in deps ==> StatusOf(rows, d) == Some(Succeeded) }

  lemma CreatedMoves(v: Slice, a: Action, deps: Deps, admitted: bool)
    requires v.row.Some? && v.row.value.status == Created && v.entry == multiset{} && v.seen
    requires !a.Release? && !a.CheckHeld? && !a.Restart?
    ensures var w := Move(v, a, deps, admitted); w.row == v.row || (w.row.Some? && w.row.value.status == Cancelled)
  {
  }

  /** Nobody but the held-job pass, or a release by hand, queues a held job. */
  lemma HeldStays(qt: QuotaTable, s: State, a: Action, i: Id)
    requires Inv(s) && StatusOf(s.rows, i) == Some(Created) && s.rows[i].inputFiles == [] && a != Release(i)
    ensures var t := Step(qt, s, a);
      || RowOf(t, i) == RowOf(s, i) || StatusOf(t.rows, i) in {Some(Failed), Some(Cancelled)}
      || Met(s.rows, s.rows[i].dependsOn)
  {
    hide Inv, Step, Moved;
    if a.Restart? {
      HeldAtRestart(qt, s, a, i);
    } else if i != Subject(a) || !Enabled(s, a) {
      OtherRows(qt, s, a, i);
    } else if a.CheckHeld? {
      HeldOutcome(qt, s, a);
    } else if a.Scan? {
      ScannedRow(s, a);
    } else {
      SubjectRow(qt, s, a);
      HeldMoves(qt, s, a);
    }
  }

  lemma HeldAtRestart(qt: QuotaTable, s: State, a: Action, i: Id)
    requires a.Restart? && StatusOf(s.rows, i) == Some(Created)
    ensures RowOf(Step(qt, s, a), i) == RowOf(s, i)
  {
    hide QueuedRows;
  }

  lemma HeldMoves(qt: QuotaTable, s: State, a: Action)
    requires Inv(s) && Enabled(s, a) && StatusOf(s.rows, Subject(a)) == Some(Created)
    requires !a.Release? && !a.CheckHeld? && !a.Restart? && !a.Scan?
    ensures var w := Moved(qt, s, a); w.row == RowOf(s, Subject(a)) || (w.row.Some? && w.row.value.status == Cancelled)
  {
    SubjectFits(s, a);
    var v := SubjectSlice(s, a);
    SubjectSliceIs(s, a);
    hide Inv, SubjectSlice, DepsStatus, Admits, Enabled;
    CreatedMoves(v, a, if v.row.Some? then DepsStatus(s.rows, v.row.value.dependsOn) else Satisfied, false);
    hide Move;
  }

  lemma SubjectSliceIs(s: State, a: Action)
    ensures SubjectSlice(s, a).row == RowOf(s, Subject(a))
  {
    hide Entry;
  }

  lemma MetStays(qt: QuotaTable, s: State, a: Action, deps: seq<Id>)
    requires Inv(s) && Met(s.rows, deps) && !(a.Purge? && a.id in deps)
    ensures Met(Step(qt, s, a).rows, deps)
  {
    hide Inv, Step;
    forall d | d in deps ensures StatusOf(Step(qt, s, a).rows, d) == Some(Succeeded) {
      DepIsSeen(s, d);
      SucceededStays(qt, s, a, d);
      if a.Restart? { RestartRows(s, d); RestartIs(qt, s, a); } else { LifecycleSafety(qt, s, a, d); }
    }
  }

  lemma RestartIs(qt: QuotaTable, s: State, a: Action)
    requires a.Restart?
    ensures Step(qt, s, a) == RestartStep(s)
  {
  }

  lemma DepIsSeen(s: State, d: Id)
    requires Inv(s) && StatusOf(s.rows, d).Some?
    ensures d in s.seen && d in s.rows
  {
    InvKeyed(s, d);
  }

  /** A job that is gone, has failed or was cancelled does not come back without a retry. */
  lemma LostStays(qt: QuotaTable, s: State, a: Action, i: Id)
    requires Inv(s) && i in s.seen && StatusOf(s.rows, i) in {None, Some(Failed), Some(Cancelled)} && a != Retry(i)
    ensures StatusOf(Step(qt, s, a).rows, i) in {None, Some(Failed), Some(Cancelled)}
  {
    hide Inv, Step;
    if i !in s.rows {
      GoneStaysGone(qt, s, a, i);
    } else if a.Restart? {
      RestartRows(s, i);
      RestartIs(qt, s, a);
    } else if a.Retry? {
      OtherRows(qt, s, a, i);
    } else {
      LifecycleSafety(qt, s, a, i);
    }
  }

  /** Over any run, crashes included, in which a held step is not released or retried by hand and none of its dependencies is
      purged: until all its dependencies have succeeded it stays held, or fails, or is cancelled; so it is queued, and runs,
      only after them. */
  lemma {:induction false} StepWaits(qt: QuotaTable, s: State, acts: seq<Action>, i: Id)
    requires Inv(s) && StatusOf(s.rows, i) == Some(Created) && s.rows[i].inputFiles == []
    requires forall k :: 0 <= k < |acts| ==>
               acts[k] != Release(i) && acts[k] != Retry(i) && !(acts[k].Purge? && acts[k].id in s.rows[i].dependsOn)
    ensures var t := Run(qt, s, acts);
      && Inv(t) && i in t.seen
      && (StatusOf(t.rows, i) in {Some(Queued), Some(Running), Some(Succeeded)} ==>
            forall d :: d in s.rows[i].dependsOn ==> StatusOf(t.rows, d) == Some(Succeeded))
      && (|| RowOf(t, i) == RowOf(s, i) || StatusOf(t.rows, i) in {None, Some(Failed), Some(Cancelled)}
          || Met(t.rows, s.rows[i].dependsOn))
  {
    hide Inv, Step;
    if |acts| == 0 {
      DepIsSeen(s, i);
    } else {
      var before, a := acts[..|acts| - 1], acts[|acts| - 1];
      var u, deps := Run(qt, s, before), s.rows[i].dependsOn;
      StepWaits(qt, s, before, i);
      StepKeepsInv(qt, u, a);
      SeenGrows(qt, u, a, i);
      if Met(u.rows, deps) {
        MetStays(qt, u, a, deps);
      } else if StatusOf(u.rows, i) in {None, Some(Failed), Some(Cancelled)} {
        LostStays(qt, u, a, i);
      } else {
        HeldStays(qt, u, a, i);
      }
    }
  }
}
