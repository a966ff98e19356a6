// Ledger: what the machines' counters and the allocation records must agree on.

module Ledger {
  import opened Resources
  import opened Jobs
  import opened Registry

  datatype Slot = Slot(machine: string, need: Res)
  datatype AllocRecord = AllocRecord(job: Id, slots: seq<Slot>, active: bool)

  const EMPTY := AllocRecord("", [], false)

  predicate SlotOk(s: Slot) { s.need.NonNegative() && s.need.cores >= 1 }

  /** What `slots` take from machine `id` together. */
  function SlotSum(slots: seq<Slot>, id: string): Res {
    if slots == [] then ZERO
    else SlotSum(slots[..|slots| - 1], id).Plus(if slots[|slots| - 1].machine == id then slots[|slots| - 1].need else ZERO)
  }

  function Own(r: AllocRecord, id: string): Res { if r.active then SlotSum(r.slots, id) else ZERO }

  /** What all active records take from machine `id` together. */
  function TableSum(table: seq<AllocRecord>, id: string): Res {
    if table == [] then ZERO
    else TableSum(table[..|table| - 1], id).Plus(Own(table[|table| - 1], id))
  }

  ghost predicate Backed(ms: seq<Machine>, slots: seq<Slot>) {
    forall s :: s in slots ==> SlotOk(s) && Has(ms, s.machine)
  }

  ghost predicate AllBacked(ms: seq<Machine>, table: seq<AllocRecord>, extra: seq<Slot>) {
    Backed(ms, extra) && forall i :: 0 <= i < |table| && table[i].active ==> Backed(ms, table[i].slots)
  }

  /** No over-commit, and the counters are exactly the slots naming the machine. */
  ghost predicate Balanced(m: Machine, table: seq<AllocRecord>, extra: seq<Slot>) {
    m.Sound() && m.reserved == TableSum(table, m.id).Plus(SlotSum(extra, m.id))
  }

  /** Conservation: every machine balances the slots of the active records and `extra`, the slots an
      allocation in progress has taken so far; and every slot's machine is registered. */
  ghost predicate Conserved(ms: seq<Machine>, table: seq<AllocRecord>, extra: seq<Slot>) {
    && UniqueIds(ms) && |ms| <= MAX_MACHINES
    && (forall i :: 0 <= i < |ms| ==> Balanced(ms[i], table, extra))
    && AllBacked(ms, table, extra)
  }

  // ---------------------------------------------------------------- sums

  lemma {:induction false} SlotSumAppend(a: seq<Slot>, b: seq<Slot>, id: string)
    ensures SlotSum(a + b, id) == SlotSum(a, id).Plus(SlotSum(b, id))
  {
    if b == [] {
      assert a + b == a;
    } else {
      assert (a + b)[..|a + b| - 1] == a + b[..|b| - 1];
      SlotSumAppend(a, b[..|b| - 1], id);
    }
  }

  lemma SlotSumNone(slots: seq<Slot>, id: string)
    requires |slots| == 0
    ensures SlotSum(slots, id) == ZERO
  {
  }

  lemma SlotSumSnoc(slots: seq<Slot>, s: Slot, id: string)
    ensures SlotSum(slots + [s], id) == SlotSum(slots, id).Plus(if s.machine == id then s.need else ZERO)
  {
    assert (slots + [s])[..|slots|] == slots;
  }

  lemma SlotSumOne(s: Slot, id: string)
    ensures SlotSum([s], id) == if s.machine == id then s.need else ZERO
  {
    SlotSumNone([s][..0], id);
  }

  lemma SlotSumCons(s: Slot, slots: seq<Slot>, id: string)
    ensures SlotSum([s] + slots, id) == SlotSum(slots, id).Plus(if s.machine == id then s.need else ZERO)
  {
    hide SlotSum;
    SlotSumAppend([s], slots, id);
    SlotSumOne(s, id);
  }

  lemma {:induction false} SlotSumBounds(slots: seq<Slot>, id: string)
    requires forall s :: s in slots ==> SlotOk(s)
    ensures SlotSum(slots, id).NonNegative()
    ensures forall s :: s in slots && s.machine == id ==> s.need.AtMost(SlotSum(slots, id))
  {
    if slots != [] {
      assert slots[|slots| - 1] in slots;
      SlotSumBounds(slots[..|slots| - 1], id);
    }
  }

  lemma {:induction false} TableSumUpdate(table: seq<AllocRecord>, i: nat, r: AllocRecord, id: string)
    requires i < |table|
    ensures TableSum(table[i := r], id) == TableSum(table, id).Minus(Own(table[i], id)).Plus(Own(r, id))
  {
    hide Own;
    var t, rest := table[i := r], table[..|table| - 1];
    if i < |table| - 1 {
      TableSumUpdate(rest, i, r, id);
      assert t[..|table| - 1] == rest[i := r];
    } else {
      assert t[..|table| - 1] == rest;
    }
  }

  lemma {:induction false} TableSumBounds(ms: seq<Machine>, table: seq<AllocRecord>, id: string)
    requires forall i :: 0 <= i < |table| && table[i].active ==> Backed(ms, table[i].slots)
    ensures TableSum(table, id).NonNegative()
    ensures forall i, s :: 0 <= i < |table| && table[i].active && s in table[i].slots && s.machine == id
                           ==> s.need.AtMost(TableSum(table, id))
  {
    if table != [] {
      var last := table[|table| - 1];
      TableSumBounds(ms, table[..|table| - 1], id);
      if last.active { SlotSumBounds(last.slots, id); }
    }
  }

  // ---------------------------------------------------------------- every step keeps the ledger

  lemma FindUpdated(ms: seq<Machine>, i: nat, m: Machine, id: string)
    requires i < |ms| && m.id == ms[i].id
    ensures Find(ms[i := m], id) == Find(ms, id)
  {
    var a, b := Find(ms, id), Find(ms[i := m], id);
    assert a < |ms| ==> ms[i := m][a].id == id;
    assert b < |ms| ==> ms[b].id == id;
  }

  lemma AllBackedUpdated(ms: seq<Machine>, i: nat, m: Machine, table: seq<AllocRecord>, extra: seq<Slot>)
    requires i < |ms| && m.id == ms[i].id && AllBacked(ms, table, extra)
    ensures AllBacked(ms[i := m], table, extra)
  {
    forall id ensures Has(ms, id) ==> Has(ms[i := m], id) { FindUpdated(ms, i, m, id); }
  }

  /** Changing the record of one machine only has to be justified for that machine. */
  lemma ConservedUpdated(ms: seq<Machine>, table: seq<AllocRecord>, extra: seq<Slot>, i: nat, m: Machine)
    requires Conserved(ms, table, extra) && i < |ms| && m.id == ms[i].id && Balanced(m, table, extra)
    ensures Conserved(ms[i := m], table, extra)
  {
    hide Balanced;
    AllBackedUpdated(ms, i, m, table, extra);
  }

  lemma SoundBooked(m: Machine, need: Res)
    requires m.Sound() && need.NonNegative() && need.AtMost(m.Headroom())
    ensures m.(reserved := m.reserved.Plus(need)).Sound()
  {
  }

  lemma SoundUnbooked(m: Machine, need: Res)
    requires m.Sound() && need.NonNegative() && need.AtMost(m.reserved)
    ensures m.(reserved := m.reserved.Minus(need)).Sound()
  {
  }

  /** What booking `s` makes of machine `m`. */
  function Booked(m: Machine, s: Slot): Machine {
    if s.machine == m.id then m.(reserved := m.reserved.Plus(s.need)) else m
  }

  function Unbooked(m: Machine, s: Slot): Machine {
    if s.machine == m.id then m.(reserved := m.reserved.Minus(s.need)) else m
  }

  lemma BookSlot(m: Machine, table: seq<AllocRecord>, extra: seq<Slot>, s: Slot)
    requires Balanced(m, table, extra)
    requires s.machine == m.id ==> s.need.NonNegative() && s.need.AtMost(m.Headroom())
    ensures Balanced(Booked(m, s), table, extra + [s])
  {
    hide SlotSum, TableSum;
    SlotSumSnoc(extra, s, m.id);
    if s.machine == m.id { SoundBooked(m, s.need); }
  }

  lemma UnbookSlot(m: Machine, table: seq<AllocRecord>, s: Slot, rest: seq<Slot>)
    requires Balanced(m, table, [s] + rest)
    requires s.machine == m.id ==> s.need.NonNegative() && s.need.AtMost(m.reserved)
    ensures Balanced(Unbooked(m, s), table, rest)
  {
    hide SlotSum, TableSum;
    SlotSumCons(s, rest, m.id);
    if s.machine == m.id { SoundUnbooked(m, s.need); }
  }

  /** A reservation the registry grants is booked once, on the machine asked for, without over-commit. */
  lemma ReserveKeeps(ms: seq<Machine>, table: seq<AllocRecord>, extra: seq<Slot>, s: Slot)
    requires Conserved(ms, table, extra) && SlotOk(s) && Reserved(ms, s.machine, s.need).1 == 0
    ensures Conserved(Reserved(ms, s.machine, s.need).0, table, extra + [s])
  {
    hide SlotSum, TableSum;
    var i := Find(ms, s.machine);
    var m := ms[i].(reserved := ms[i].reserved.Plus(s.need));
    var after := ms[i := m];
    forall k | 0 <= k < |ms| ensures Balanced(after[k], table, extra + [s]) { BookSlot(ms[k], table, extra, s); }
    AllBackedUpdated(ms, i, m, table, extra);
    FindUpdated(ms, i, m, s.machine);
    hide Balanced;
  }

  lemma BookedSlotIsCovered(m: Machine, ms: seq<Machine>, table: seq<AllocRecord>, extra: seq<Slot>, s: Slot)
    requires Balanced(m, table, extra) && AllBacked(ms, table, extra) && s in extra && s.machine == m.id
    ensures s.need.AtMost(m.reserved)
  {
    SlotSumBounds(extra, m.id);
    TableSumBounds(ms, table, m.id);
  }

  /** Releasing a booked slot always finds its machine and never needs the clamp. */
  lemma ReleaseFinds(ms: seq<Machine>, table: seq<AllocRecord>, s: Slot, extra: seq<Slot>)
    requires Conserved(ms, table, extra) && s in extra
    ensures var i := Find(ms, s.machine);
            && i < |ms|
            && s.need.NonNegative() && s.need.AtMost(ms[i].reserved)
            && Released(ms, s.machine, s.need) == (ms[i := ms[i].(reserved := ms[i].reserved.Minus(s.need))], 0)
  {
    hide SlotSum, TableSum;
    var i := Find(ms, s.machine);
    BookedSlotIsCovered(ms[i], ms, table, extra, s);
    hide Balanced;
  }

  /** ... and unbooks exactly that slot. */
  lemma ReleaseKeeps(ms: seq<Machine>, table: seq<AllocRecord>, s: Slot, rest: seq<Slot>)
    requires Conserved(ms, table, [s] + rest)
    ensures Released(ms, s.machine, s.need).1 == 0
    ensures Conserved(Released(ms, s.machine, s.need).0, table, rest)
  {
    hide SlotSum, TableSum, Balanced;
    assert s in [s] + rest;
    ReleaseFinds(ms, table, s, [s] + rest);
    var i := Find(ms, s.machine);
    var after := ms[i := Unbooked(ms[i], s)];
    forall k | 0 <= k < |ms| ensures Balanced(after[k], table, rest) { UnbookSlot(ms[k], table, s, rest); }
    forall t | t in rest ensures t in [s] + rest { }
    AllBackedUpdated(ms, i, after[i], table, rest);
  }

  /** A machine holding any slot has busy cores, so removal is refused until its slots are gone. */
  lemma RemovedHoldsNothing(ms: seq<Machine>, table: seq<AllocRecord>, extra: seq<Slot>, id: string)
    requires Conserved(ms, table, extra) && Removed(ms, id).1 == 0
    ensures NobodyOn(id, table) && NoSlotOn(id, extra)
  {
    SlotSumBounds(extra, id);
    TableSumBounds(ms, table, id);
    assert Balanced(ms[Find(ms, id)], table, extra);
  }

  /** Swap-remove keeps every other machine findable. */
  lemma FindRemoved(ms: seq<Machine>, gone: string, id: string)
    requires UniqueIds(ms) && Removed(ms, gone).1 == 0
    ensures UniqueIds(Removed(ms, gone).0)
    ensures Has(Removed(ms, gone).0, id) <==> Has(ms, id) && id != gone
  {
    var i, after := Find(ms, gone), Removed(ms, gone).0;
    assert forall k :: 0 <= k < |after| ==> after[k] == ms[if k == i then |ms| - 1 else k];
    var f := Find(ms, id);
    if f < |ms| && id != gone { assert after[if f == |ms| - 1 then i else f].id == id; }
  }

  lemma AllBackedAdded(ms: seq<Machine>, m: Machine, table: seq<AllocRecord>, extra: seq<Slot>)
    requires AllBacked(ms, table, extra)
    ensures AllBacked(ms + [m], table, extra)
  {
    forall id ensures Has(ms, id) ==> Has(ms + [m], id) { FindInLonger(ms, m, id); }
  }

  ghost predicate NoSlotOn(id: string, slots: seq<Slot>) { forall s :: s in slots ==> s.machine != id }

  ghost predicate NobodyOn(id: string, table: seq<AllocRecord>) {
    forall i :: 0 <= i < |table| && table[i].active ==> NoSlotOn(id, table[i].slots)
  }

  lemma {:induction false} NoSlotSumsToZero(slots: seq<Slot>, id: string)
    requires NoSlotOn(id, slots)
    ensures SlotSum(slots, id) == ZERO
  {
    if slots != [] { NoSlotSumsToZero(slots[..|slots| - 1], id); }
  }

  lemma {:induction false} NoRecordSumsToZero(table: seq<AllocRecord>, id: string)
    requires NobodyOn(id, table)
    ensures TableSum(table, id) == ZERO
  {
    if table != [] {
      NoRecordSumsToZero(table[..|table| - 1], id);
      if table[|table| - 1].active { NoSlotSumsToZero(table[|table| - 1].slots, id); }
    }
  }

  lemma NewMachineBalance(m: Machine, table: seq<AllocRecord>, extra: seq<Slot>)
    requires NobodyOn(m.id, table) && NoSlotOn(m.id, extra) && AcceptableMachine(m) && Representable(m)
    ensures Balanced(m, table, extra) <==> m.reserved == ZERO
  {
    hide SlotSum, TableSum;
    NoSlotSumsToZero(extra, m.id);
    NoRecordSumsToZero(table, m.id);
    assert m.reserved == ZERO ==> m.Sound();
    hide m.Sound, AcceptableMachine, Representable;
  }

  lemma UnknownMachineIsNobodys(ms: seq<Machine>, table: seq<AllocRecord>, extra: seq<Slot>, id: string)
    requires AllBacked(ms, table, extra) && !Has(ms, id)
    ensures NobodyOn(id, table) && NoSlotOn(id, extra)
  {
  }

  /** A machine new to the registry must come with zero counters: then, and only then, the ledger still balances. */
  lemma NewMachineMustBeBlank(ms: seq<Machine>, table: seq<AllocRecord>, extra: seq<Slot>, m: Machine)
    requires Conserved(ms, table, extra) && Representable(m) && !Has(ms, m.id) && Upserted(ms, m).1 == 0
    ensures Conserved(Upserted(ms, m).0, table, extra) <==> m.reserved == ZERO
  {
    hide SlotSum, TableSum;
    UnknownMachineIsNobodys(ms, table, extra, m.id);
    NewMachineBalance(m, table, extra);
    AllBackedAdded(ms, m, table, extra);
    var after := ms + [m];
    assert after[|ms|] == m && after == Upserted(ms, m).0;
    hide Balanced, AllBacked, Representable;
  }

  lemma UpsertKeeps(ms: seq<Machine>, table: seq<AllocRecord>, extra: seq<Slot>, m: Machine)
    requires Conserved(ms, table, extra) && Representable(m) && (m.reserved == ZERO || Has(ms, m.id))
    ensures Conserved(Upserted(ms, m).0, table, extra)
  {
    var i := Find(ms, m.id);
    var (after, r) := Upserted(ms, m);
    if r == 0 && i < |ms| {
      assert Balanced(after[i], table, extra);
      hide Balanced;
      ConservedUpdated(ms, table, extra, i, after[i]);
    } else if r == 0 {
      NewMachineMustBeBlank(ms, table, extra, m);
    }
  }

  lemma RemoveKeeps(ms: seq<Machine>, table: seq<AllocRecord>, extra: seq<Slot>, id: string)
    requires Conserved(ms, table, extra)
    ensures Conserved(Removed(ms, id).0, table, extra)
  {
    hide Balanced;
    var (after, r) := Removed(ms, id);
    if r == 0 {
      RemovedHoldsNothing(ms, table, extra, id);
      FindRemoved(ms, id, id);
      forall other ensures Has(after, other) <==> Has(ms, other) && other != id { FindRemoved(ms, id, other); }
      var i := Find(ms, id);
      assert forall k :: 0 <= k < |after| ==> after[k] == ms[if k == i then |ms| - 1 else k];
    }
  }

  lemma OpKeeps(ms: seq<Machine>, table: seq<AllocRecord>, extra: seq<Slot>, op: RegOp)
    requires Conserved(ms, table, extra) && Blank(op)
    ensures Conserved(Apply(ms, op), table, extra)
  {
    match op
    case Upsert(m) => UpsertKeeps(ms, table, extra, m);
    case Remove(id) => RemoveKeeps(ms, table, extra, id);
    case Probe(id, status, time, reachable) =>
      var i := Find(ms, id);
      if i < |ms| {
        assert Balanced(ms[i], table, extra);
        ConservedUpdated(ms, table, extra, i, Apply(ms, op)[i]);
      }
  }

  /** Whatever other threads do to the registry in between, the books still balance. */
  lemma {:induction false} InterferenceKeeps(ms: seq<Machine>, table: seq<AllocRecord>, extra: seq<Slot>, ops: seq<RegOp>)
    requires Conserved(ms, table, extra) && forall op :: op in ops ==> Blank(op)
    ensures Conserved(ApplyAll(ms, ops), table, extra)
  {
    if ops != [] {
      InterferenceKeeps(ms, table, extra, ops[..|ops| - 1]);
      OpKeeps(ApplyAll(ms, ops[..|ops| - 1]), table, extra, ops[|ops| - 1]);
    }
  }

  /** Filing the slots taken in progress under a record moves them from one side of the books to the other. */
  lemma FileRecord(ms: seq<Machine>, table: seq<AllocRecord>, i: nat, r: AllocRecord)
    requires i < |table| && !table[i].active && r.active
    ensures Conserved(ms, table, r.slots) <==> Conserved(ms, table[i := r], [])
  {
    hide SlotSum, TableSum;
    var filed := table[i := r];
    forall m: Machine ensures Balanced(m, table, r.slots) <==> Balanced(m, filed, []) {
      TableSumUpdate(table, i, r, m.id);
      SlotSumNone([], m.id);
    }
    assert AllBacked(ms, table, r.slots) <==> AllBacked(ms, filed, []) by {
      assert filed[i] == r;
      assert forall k :: 0 <= k < |table| && k != i ==> filed[k] == table[k];
    }
    hide Balanced, AllBacked;
  }

  lemma InactiveRecordIsNothing(ms: seq<Machine>, table: seq<AllocRecord>, extra: seq<Slot>, r: AllocRecord)
    requires !r.active
    ensures Conserved(ms, table + [r], extra) <==> Conserved(ms, table, extra)
  {
    var longer := table + [r];
    assert longer[..|table|] == table;
    forall m: Machine ensures Balanced(m, table, extra) <==> Balanced(m, longer, extra) { }
    assert AllBacked(ms, table, extra) <==> AllBacked(ms, longer, extra) by {
      assert forall k :: 0 <= k < |table| ==> longer[k] == table[k];
    }
    hide Balanced, AllBacked;
  }
}
