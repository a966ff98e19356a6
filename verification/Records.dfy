// Records: the table of allocation records, and the allocation rows persisted for them.

module Records {
  import opened Resources
  import opened Jobs
  import opened Registry
  import opened Ledger
  import opened Plans

  /** Index of the first active record of `job`, or the length of the table. */
  function RecordOf(table: seq<AllocRecord>, job: Id): (r: nat)
    ensures r <= |table|
    ensures r < |table| ==> table[r].active && table[r].job == job
    ensures forall k :: 0 <= k < r ==> !(table[k].active && table[k].job == job)
  {
    if table == [] || (table[0].active && table[0].job == job) then 0 else 1 + RecordOf(table[1..], job)
  }

  predicate HasRecord(table: seq<AllocRecord>, job: Id) { RecordOf(table, job) < |table| }

  /** The slots `job` holds. */
  function SlotsOf(table: seq<AllocRecord>, job: Id): seq<Slot> {
    var i := RecordOf(table, job);
    if i < |table| then table[i].slots else []
  }

  ghost predicate SameSlots(a: seq<AllocRecord>, b: seq<AllocRecord>) {
    forall j :: SlotsOf(a, j) == SlotsOf(b, j) && (HasRecord(a, j) <==> HasRecord(b, j))
  }

  ghost predicate DistinctMachines(slots: seq<Slot>) {
    forall k, l :: 0 <= k < l < |slots| ==> slots[k].machine != slots[l].machine
  }

  /** At most one active record per job, each with one to sixteen slots on different machines. */
  ghost predicate Filed(table: seq<AllocRecord>) {
    && (forall i, j :: 0 <= i < j < |table| && table[i].active && table[j].active ==> table[i].job != table[j].job)
    && (forall i :: 0 <= i < |table| && table[i].active ==>
          1 <= |table[i].slots| <= MAX_MACHINES_PER_JOB && DistinctMachines(table[i].slots))
  }

  datatype Row = Row(need: Res, open: bool)
  type Rows = map<(Id, string), Row>

  ghost predicate OpenRowsAreSlots(table: seq<AllocRecord>, rows: Rows, closing: multiset<Id>) {
    forall k :: k in rows && rows[k].open && closing[k.0] == 0 ==> Slot(k.1, rows[k].need) in SlotsOf(table, k.0)
  }

  ghost predicate SlotsAreOpenRows(table: seq<AllocRecord>, rows: Rows) {
    forall j, s :: s in SlotsOf(table, j) ==> (j, s.machine) in rows && rows[(j, s.machine)] == Row(s.need, true)
  }

  ghost predicate ClosingAreGone(table: seq<AllocRecord>, closing: multiset<Id>) {
    forall j :: closing[j] > 0 ==> !HasRecord(table, j)
  }

  /** The open rows are exactly the slots of active records, but for jobs whose release has freed
      the record and not reached the database yet: those have no record any more. */
  ghost predicate RowsMatch(table: seq<AllocRecord>, rows: Rows, closing: multiset<Id>) {
    OpenRowsAreSlots(table, rows, closing) && SlotsAreOpenRows(table, rows) && ClosingAreGone(table, closing)
  }

  /** Everything the two modules and the database must agree on while no allocator call is in progress. */
  ghost predicate Consistent(ms: seq<Machine>, table: seq<AllocRecord>, rows: Rows, closing: multiset<Id>) {
    Conserved(ms, table, []) && Filed(table) && RowsMatch(table, rows, closing)
  }

  // ---------------------------------------------------------------- the table

  lemma RecordIs(table: seq<AllocRecord>, i: nat)
    requires Filed(table) && i < |table| && table[i].active
    ensures RecordOf(table, table[i].job) == i
  {
  }

  /** `base` is `table` with an unused record at `i`, possibly a new one at the end. */
  ghost predicate Spare(table: seq<AllocRecord>, base: seq<AllocRecord>, i: nat) {
    && i < |base| && base[i] == EMPTY
    && ((i < |table| && !table[i].active && base == table[i := EMPTY]) || (i == |table| && base == table + [EMPTY]))
  }

  lemma SpareKeepsSlots(table: seq<AllocRecord>, base: seq<AllocRecord>, i: nat)
    requires Spare(table, base, i)
    ensures SameSlots(table, base)
    ensures Filed(table) ==> Filed(base)
  {
    forall j ensures SlotsOf(table, j) == SlotsOf(base, j) && (HasRecord(table, j) <==> HasRecord(base, j)) {
      var a, b := RecordOf(table, j), RecordOf(base, j);
      assert a < |table| ==> base[a] == table[a];
      assert b < |base| && b != i ==> base[b] == table[b];
    }
    assert forall k :: 0 <= k < |base| && k != i ==> base[k] == table[k];
  }

  lemma ConservedWithout(ms: seq<Machine>, table: seq<AllocRecord>, i: nat, extra: seq<Slot>)
    requires i < |table| && !table[i].active && Conserved(ms, table, extra)
    ensures Conserved(ms, table[i := EMPTY], extra)
  {
    hide SlotSum, TableSum;
    var base := table[i := EMPTY];
    forall m: Machine ensures Balanced(m, table, extra) ==> Balanced(m, base, extra) { TableSumUpdate(table, i, EMPTY, m.id); }
    assert AllBacked(ms, base, extra) by {
      assert forall k :: 0 <= k < |table| && k != i ==> base[k] == table[k];
    }
    hide Balanced, AllBacked;
  }

  lemma SpareKeepsBooks(ms: seq<Machine>, table: seq<AllocRecord>, base: seq<AllocRecord>, i: nat, extra: seq<Slot>)
    requires Spare(table, base, i) && Conserved(ms, table, extra)
    ensures Conserved(ms, base, extra)
  {
    hide Conserved;
    if i < |table| {
      ConservedWithout(ms, table, i, extra);
    } else {
      InactiveRecordIsNothing(ms, table, extra, EMPTY);
    }
  }

  lemma SlotsWith(base: seq<AllocRecord>, i: nat, r: AllocRecord)
    requires i < |base| && !base[i].active && r.active && !HasRecord(base, r.job)
    ensures forall j :: SlotsOf(base[i := r], j) == (if j == r.job then r.slots else SlotsOf(base, j))
    ensures forall j :: HasRecord(base[i := r], j) <==> j == r.job || HasRecord(base, j)
    ensures Filed(base) && 1 <= |r.slots| <= MAX_MACHINES_PER_JOB && DistinctMachines(r.slots) ==> Filed(base[i := r])
  {
    var t := base[i := r];
    forall j
      ensures SlotsOf(t, j) == (if j == r.job then r.slots else SlotsOf(base, j))
      ensures HasRecord(t, j) <==> j == r.job || HasRecord(base, j)
    {
      var a, b := RecordOf(base, j), RecordOf(t, j);
      assert t[i] == r;
      assert a < |base| ==> t[a] == base[a];
      assert b < |t| && b != i ==> t[b] == base[b];
    }
    assert forall k :: 0 <= k < |base| && k != i ==> t[k] == base[k];
  }

  lemma SlotsWithout(table: seq<AllocRecord>, i: nat)
    requires Filed(table) && i < |table| && table[i].active
    ensures var base := table[i := EMPTY];
            && Filed(base)
            && (forall j :: SlotsOf(base, j) == (if j == table[i].job then [] else SlotsOf(table, j)))
            && (forall j :: HasRecord(base, j) <==> j != table[i].job && HasRecord(table, j))
  {
    var base := table[i := EMPTY];
    assert forall k :: 0 <= k < |table| && k != i ==> base[k] == table[k];
    forall j
      ensures SlotsOf(base, j) == (if j == table[i].job then [] else SlotsOf(table, j))
      ensures HasRecord(base, j) <==> j != table[i].job && HasRecord(table, j)
    {
      var a, b := RecordOf(table, j), RecordOf(base, j);
      assert a < |table| && a != i ==> base[a] == table[a];
      assert b < |base| ==> base[b] == table[b];
      if j == table[i].job { RecordIs(table, i); }
    }
  }

  // ---------------------------------------------------------------- the rows

  /** INSERT OR REPLACE of one open row per slot. */
  function Inserted(rows: Rows, job: Id, slots: seq<Slot>): Rows {
    if slots == [] then rows
    else Inserted(rows, job, slots[..|slots| - 1])[(job, slots[|slots| - 1].machine) := Row(slots[|slots| - 1].need, true)]
  }

  function Closed(rows: Rows, job: Id): Rows {
    map k | k in rows :: if k.0 == job then rows[k].(open := false) else rows[k]
  }

  /** `after` is `rows` with exactly one open row of `job` per slot written. */
  ghost predicate RowsOpenedFor(rows: Rows, after: Rows, job: Id, slots: seq<Slot>) {
    && (forall k :: k in after <==> k in rows || (k.0 == job && exists s :: s in slots && s.machine == k.1))
    && (forall s :: s in slots ==> (job, s.machine) in after && after[(job, s.machine)] == Row(s.need, true))
    && (forall k :: k in rows && (k.0 != job || NoSlotOn(k.1, slots)) ==> after[k] == rows[k])
  }

  lemma OpenOneMore(rows: Rows, after: Rows, job: Id, slots: seq<Slot>, s: Slot)
    requires RowsOpenedFor(rows, after, job, slots) && NoSlotOn(s.machine, slots)
    ensures RowsOpenedFor(rows, after[(job, s.machine) := Row(s.need, true)], job, slots + [s])
  {
    var more := after[(job, s.machine) := Row(s.need, true)];
    forall k ensures k in more <==> k in rows || (k.0 == job && exists x :: x in slots + [s] && x.machine == k.1) {
      if k == (job, s.machine) { assert s in slots + [s]; }
      if x :| x in slots && x.machine == k.1 { assert x in slots + [s]; }
    }
  }

  lemma {:induction false} InsertedRows(rows: Rows, job: Id, slots: seq<Slot>)
    requires DistinctMachines(slots)
    ensures RowsOpenedFor(rows, Inserted(rows, job, slots), job, slots)
  {
    if slots != [] {
      var init, last := slots[..|slots| - 1], slots[|slots| - 1];
      hide RowsOpenedFor;
      InsertedRows(rows, job, init);
      assert slots == init + [last];
      assert NoSlotOn(last.machine, init);
      OpenOneMore(rows, Inserted(rows, job, init), job, init, last);
    }
  }

  /** A committed reservation opens exactly the rows of its slots. */
  lemma RowsAfterReserve(base: seq<AllocRecord>, rows: Rows, closing: multiset<Id>, i: nat, r: AllocRecord)
    requires RowsMatch(base, rows, closing) && closing[r.job] == 0
    requires i < |base| && !base[i].active && r.active && !HasRecord(base, r.job) && DistinctMachines(r.slots)
    ensures RowsMatch(base[i := r], Inserted(rows, r.job, r.slots), closing)
  {
    assert SlotsOf(base, r.job) == [];
    hide SlotsOf, HasRecord, RecordOf, Inserted, Filed, DistinctMachines, RowsOpenedFor, OpenRowsAreSlots, SlotsAreOpenRows;
    SlotsWith(base, i, r);
    InsertedRows(rows, r.job, r.slots);
    ReserveOpens(base, base[i := r], rows, Inserted(rows, r.job, r.slots), closing, r);
    ReserveCovers(base, base[i := r], rows, Inserted(rows, r.job, r.slots), r);
  }

  lemma ReserveOpens(base: seq<AllocRecord>, t: seq<AllocRecord>, rows: Rows, after: Rows, closing: multiset<Id>, r: AllocRecord)
    requires OpenRowsAreSlots(base, rows, closing) && RowsOpenedFor(rows, after, r.job, r.slots) && SlotsOf(base, r.job) == []
    requires forall j :: SlotsOf(t, j) == (if j == r.job then r.slots else SlotsOf(base, j))
    ensures OpenRowsAreSlots(t, after, closing)
  {
    hide SlotsOf;
    forall k | k in after && after[k].open && closing[k.0] == 0 ensures Slot(k.1, after[k].need) in SlotsOf(t, k.0) {
      if k.0 == r.job && exists s :: s in r.slots && s.machine == k.1 {
        var s :| s in r.slots && s.machine == k.1;
        assert after[(r.job, s.machine)] == Row(s.need, true) && k == (r.job, s.machine);
      } else {
        assert k in rows && after[k] == rows[k];
      }
    }
  }

  lemma ReserveCovers(base: seq<AllocRecord>, t: seq<AllocRecord>, rows: Rows, after: Rows, r: AllocRecord)
    requires SlotsAreOpenRows(base, rows) && RowsOpenedFor(rows, after, r.job, r.slots)
    requires forall j :: SlotsOf(t, j) == (if j == r.job then r.slots else SlotsOf(base, j))
    ensures SlotsAreOpenRows(t, after)
  {
    hide SlotsOf;
    forall j, s | s in SlotsOf(t, j) ensures (j, s.machine) in after && after[(j, s.machine)] == Row(s.need, true) {
      if j != r.job {
        assert s in SlotsOf(base, j);
        assert (j, s.machine) in rows && after[(j, s.machine)] == rows[(j, s.machine)];
      }
    }
  }

  /** Freeing a record leaves its rows open, and only those: the release is now on its way to the database. */
  lemma RowsAfterFree(table: seq<AllocRecord>, rows: Rows, closing: multiset<Id>, i: nat)
    requires Filed(table) && RowsMatch(table, rows, closing) && i < |table| && table[i].active
    ensures RowsMatch(table[i := EMPTY], rows, closing + multiset{table[i].job})
  {
    SlotsWithout(table, i);
    hide SlotsOf, HasRecord;
  }

  lemma RowsClosingMore(table: seq<AllocRecord>, rows: Rows, closing: multiset<Id>, job: Id)
    requires RowsMatch(table, rows, closing) && !HasRecord(table, job)
    ensures RowsMatch(table, rows, closing + multiset{job})
  {
    hide SlotsOf, HasRecord;
  }

  /** Closing the rows of a job without a record restores the match. */
  lemma RowsAfterClose(table: seq<AllocRecord>, rows: Rows, closing: multiset<Id>, was: multiset<Id>, job: Id)
    requires was == closing + multiset{job} && RowsMatch(table, rows, was)
    ensures RowsMatch(table, Closed(rows, job), closing)
  {
    var after := Closed(rows, job);
    assert was[job] > 0;
    assert SlotsOf(table, job) == [];
    hide SlotsOf, HasRecord, RecordOf;
    forall k | k in after && after[k].open && closing[k.0] == 0 ensures Slot(k.1, after[k].need) in SlotsOf(table, k.0) {
      assert k in rows && k.0 != job && was[k.0] == 0;
    }
    assert OpenRowsAreSlots(table, after, closing);
    CloseCovers(table, rows, job);
    assert ClosingAreGone(table, closing) by {
      forall j | closing[j] > 0 ensures !HasRecord(table, j) { assert was[j] > 0; }
    }
    hide OpenRowsAreSlots, SlotsAreOpenRows, ClosingAreGone;
  }

  lemma CloseCovers(table: seq<AllocRecord>, rows: Rows, job: Id)
    requires SlotsAreOpenRows(table, rows) && SlotsOf(table, job) == []
    ensures SlotsAreOpenRows(table, Closed(rows, job))
  {
    hide SlotsOf;
    var after := Closed(rows, job);
    forall j, s | s in SlotsOf(table, j) ensures (j, s.machine) in after && after[(j, s.machine)] == Row(s.need, true) {
      assert j != job && (j, s.machine) in rows;
    }
  }

  // ---------------------------------------------------------------- ending an allocation

  lemma RowsMatchAlike(a: seq<AllocRecord>, b: seq<AllocRecord>, rows: Rows, closing: multiset<Id>)
    requires SameSlots(a, b) && RowsMatch(a, rows, closing)
    ensures RowsMatch(b, rows, closing)
  {
    hide SlotsOf, HasRecord;
  }

  /** Putting the record away unused restores everything. */
  lemma Abandon(ms: seq<Machine>, table: seq<AllocRecord>, base: seq<AllocRecord>, i: nat, rows: Rows, closing: multiset<Id>)
    requires Filed(table) && RowsMatch(table, rows, closing) && Spare(table, base, i) && Conserved(ms, base, [])
    ensures Consistent(ms, base, rows, closing) && SameSlots(table, base)
  {
    hide Conserved, SlotsOf, HasRecord, RowsMatch, Filed;
    SpareKeepsSlots(table, base, i);
    RowsMatchAlike(table, base, rows, closing);
  }

  /** Filing the taken slots and committing their rows ends a reservation consistently. */
  lemma Commit(ms: seq<Machine>, table: seq<AllocRecord>, base: seq<AllocRecord>, i: nat, r: AllocRecord, rows: Rows,
               closing: multiset<Id>)
    requires Filed(table) && RowsMatch(table, rows, closing) && Spare(table, base, i) && Conserved(ms, base, r.slots)
    requires r.active && !HasRecord(table, r.job) && closing[r.job] == 0
    requires 1 <= |r.slots| <= MAX_MACHINES_PER_JOB && DistinctMachines(r.slots)
    ensures Consistent(ms, base[i := r], Inserted(rows, r.job, r.slots), closing)
    ensures forall j :: SlotsOf(base[i := r], j) == if j == r.job then r.slots else SlotsOf(table, j)
  {
    hide Conserved, DistinctMachines, Inserted, RowsMatch, SlotsOf, HasRecord, Filed;
    SpareKeepsSlots(table, base, i);
    RowsMatchAlike(table, base, rows, closing);
    FileRecord(ms, base, i, r);
    SlotsWith(base, i, r);
    RowsAfterReserve(base, rows, closing, i, r);
  }
}
