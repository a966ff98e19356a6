// ActiveList: the executor's entry points that walk the list of active executions while they hold its lock.

module ActiveList {
  import opened Wrappers
  import opened Jobs
  import opened Executor

  lemma {:induction false} FirstIsAt(s: State, ids: seq<ExecId>, j: Id, k: nat)
    requires k <= |ids|
    requires forall i :: 0 <= i < k ==> !(ids[i] in s.execs && s.execs[ids[i]].job == j)
    ensures FirstWith(s, ids, j) == FirstWith(s, ids[k..], j)
  {
    if k > 0 {
      FirstIsAt(s, ids[1..], j, k - 1);
      assert ids[1..][k - 1..] == ids[k..];
    } else {
      assert ids[0..] == ids;
    }
  }

  lemma {:induction false} WithoutIsAt(ids: seq<ExecId>, e: ExecId, k: nat)
    requires k <= |ids| && e !in ids[..k] && (k < |ids| ==> ids[k] == e)
    ensures Without(ids, e) == if k < |ids| then ids[..k] + ids[k + 1..] else ids
  {
    if k > 0 {
      assert ids[0] in ids[..k];
      assert ids[1..][..k - 1] == ids[..k][1..];
      WithoutIsAt(ids[1..], e, k - 1);
    }
  }

  lemma {:induction false} SweepSplits(s: State, ids: seq<ExecId>, k: nat)
    requires k < |ids|
    ensures Sweep(s, ids[..k + 1]) == SweepOne(Sweep(s, ids[..k]), ids[k])
    decreases |ids|
  {
    hide SweepOne;
    if k > 0 {
      SweepSplits(SweepOne(s, ids[0]), ids[1..], k - 1);
      assert ids[1..][..k] == ids[..k + 1][1..] && ids[1..][..k - 1] == ids[..k][1..];
    } else {
      assert ids[..1] == [ids[0]];
      assert [ids[0]][1..] == ids[..0];
    }
  }

  /** What s_active_lock protects. */
  class Executions {
    var state: State

    constructor (db: map<Id, Status>)
      ensures Fresh(state) && state.db == db
    {
      state := State([], map[], map[], map[], multiset{}, Idle, false, {}, db, db.Keys, 0);
    }

    /** executor_is_active */
    method IsActive(j: Id) returns (found: bool)
      ensures found == Active(state, j)
      ensures found ==> exists e :: e in state.active && e in state.execs && state.execs[e].job == j
      ensures !found ==> forall e :: e in state.active && e in state.execs ==> state.execs[e].job != j
    {
      var r := Search(j);
      found := r.Some?;
    }

    method Search(j: Id) returns (r: Option<ExecId>)
      ensures r == FirstWith(state, state.active, j)
    {
      var i := 0;
      while i < |state.active| && !(state.active[i] in state.execs && state.execs[state.active[i]].job == j)
        invariant i <= |state.active|
        invariant forall k :: 0 <= k < i ==> !(state.active[k] in state.execs && state.execs[state.active[k]].job == j)
      {
        i := i + 1;
      }
      FirstIsAt(state, state.active, j, i);
      r := if i < |state.active| then Some(state.active[i]) else None;
    }

    /** active_request_termination */
    method RequestTermination(j: Id, status: Status, reason: string) returns (found: bool)
      modifies this
      ensures found == Active(old(state), j)
      ensures state == RequestStep(old(state), j, status, reason)
    {
      var r := Search(j);
      found := r.Some?;
      if found { state := Mark(state, r.value, status, reason); }
    }

    /** active_unregister, by the thread that owns the execution */
    method Unregister(who: Who, e: ExecId)
      modifies this
      ensures state == UnregisterStep(old(state), who, e)
    {
      var i := 0;
      while i < |state.active| && state.active[i] != e
        invariant i <= |state.active|
        invariant e !in state.active[..i]
        invariant state == old(state)
      {
        i := i + 1;
      }
      WithoutIsAt(state.active, e, i);
      var rest := if i < |state.active| then state.active[..i] + state.active[i + 1..] else state.active;
      state := Leave(state, who).(active := rest, execs := state.execs - {e});
    }

    /** executor_shutdown, up to its wait for the list to empty */
    method Shutdown()
      modifies this
      ensures state == Step(old(state), Executor.Shutdown)
    {
      var ids := state.active;
      var swept := state;
      var i := 0;
      while i < |ids|
        invariant i <= |ids| && ids == old(state).active
        invariant swept == Sweep(old(state), ids[..i])
      {
        SweepSplits(old(state), ids, i);
        swept := SweepOne(swept, ids[i]);
        i := i + 1;
      }
      assert ids[..i] == ids;
      state := swept.(shutting := true);
    }
  }
}
