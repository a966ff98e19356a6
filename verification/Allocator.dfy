// Allocator: reservations for one machine or several, with other threads free to act on the registry
// between any two of the allocator's calls into it.

module Allocator {
  import opened Wrappers
  import opened Resources
  import opened Jobs
  import opened Registry
  import opened Ledger
  import opened Plans
  import opened Records

  /** Equal but for the reservation counters. */
  ghost predicate SameShape(a: seq<Machine>, b: seq<Machine>) {
    |a| == |b| && forall i :: 0 <= i < |a| ==> a[i] == b[i].(reserved := a[i].reserved)
  }

  /** The books leave no freedom: with the same records, machines that differ only in counters are equal. */
  lemma BooksDecide(a: seq<Machine>, b: seq<Machine>, table: seq<AllocRecord>, extra: seq<Slot>)
    requires Conserved(a, table, extra) && Conserved(b, table, extra) && SameShape(a, b)
    ensures a == b
  {
    hide SlotSum, TableSum, AllBacked, UniqueIds;
    forall i | 0 <= i < |a| ensures a[i] == b[i] {
      assert Balanced(a[i], table, extra) && Balanced(b[i], table, extra);
      assert a[i].reserved == b[i].reserved;
    }
  }

  lemma SameFind(a: seq<Machine>, b: seq<Machine>, id: string)
    requires SameShape(a, b)
    ensures Find(a, id) == Find(b, id)
  {
    var i, j := Find(a, id), Find(b, id);
    assert i < |a| ==> b[i].id == id;
    assert j < |b| ==> a[j].id == id;
  }

  // ---------------------------------------------------------------- what the other threads did

  predicate Took(ms: seq<Machine>, op: RegOp) {
    match op
    case Upsert(m) => Upserted(ms, m).1 == 0
    case Remove(id) => Removed(ms, id).1 == 0
    case Probe(id, status, time, reachable) => Probed(ms, id, status, time, reachable).1 == 0
  }

  /** Those of `ops`, done one after the other, that are not refused. */
  function Effective(ms: seq<Machine>, ops: seq<RegOp>): seq<RegOp> {
    if |ops| == 0 then []
    else
      var front, last := ops[..|ops| - 1], ops[|ops| - 1];
      Effective(ms, front) + (if Took(ApplyAll(ms, front), last) then [last] else [])
  }

  /** `a` is `b` with some entries left out. */
  predicate Within(a: seq<RegOp>, b: seq<RegOp>) {
    if |a| == 0 then true
    else if |b| == 0 then false
    else (a[|a| - 1] == b[|b| - 1] && Within(a[..|a| - 1], b[..|b| - 1])) || Within(a, b[..|b| - 1])
  }

  /** All that other threads try in the gaps `from` to `to`. */
  function Tried(meddle: nat -> seq<RegOp>, from: nat, to: nat): seq<RegOp> {
    if to <= from then [] else Tried(meddle, from, to - 1) + meddle(to - 1)
  }

  ghost predicate Heard(meddle: nat -> seq<RegOp>, from: nat, to: nat, others: seq<RegOp>) {
    from <= to && Within(others, Tried(meddle, from, to))
  }

  /** `ms` is what the others made of `started`, but for counters, and without them `base` is all that is booked. */
  ghost predicate Tracks(ms: seq<Machine>, started: seq<Machine>, others: seq<RegOp>, base: seq<AllocRecord>) {
    SameShape(ms, ApplyAll(started, others)) && Conserved(ApplyAll(started, others), base, [])
  }

  lemma {:induction false} WithinAppend(a: seq<RegOp>, b: seq<RegOp>, c: seq<RegOp>, d: seq<RegOp>)
    requires Within(a, b) && Within(c, d)
    ensures Within(a + c, b + d)
    decreases |d|
  {
    if |d| == 0 {
      assert a + c == a && b + d == b;
    } else {
      var e, front := d[..|d| - 1], b + d[..|d| - 1];
      assert (b + d)[..|b + d| - 1] == front;
      if Within(c, e) {
        WithinAppend(a, b, c, e);
      } else {
        WithinAppend(a, b, c[..|c| - 1], e);
        assert (a + c)[..|a + c| - 1] == a + c[..|c| - 1];
      }
    }
  }

  lemma {:induction false} EffectiveWithin(ms: seq<Machine>, ops: seq<RegOp>)
    ensures Within(Effective(ms, ops), ops)
  {
    hide Took;
    if |ops| > 0 {
      var front, last := ops[..|ops| - 1], ops[|ops| - 1];
      EffectiveWithin(ms, front);
      var e := Effective(ms, front);
      assert (e + [last])[..|e|] == e && e + [] == e;
    }
  }

  lemma HeardMore(meddle: nat -> seq<RegOp>, from: nat, to: nat, others: seq<RegOp>, ms: seq<Machine>)
    requires Heard(meddle, from, to, others)
    ensures Heard(meddle, from, to + 1, others + Effective(ms, meddle(to)))
  {
    hide Effective, Within;
    EffectiveWithin(ms, meddle(to));
    WithinAppend(others, Tried(meddle, from, to), Effective(ms, meddle(to)), meddle(to));
  }

  lemma HeardNothing(meddle: nat -> seq<RegOp>, from: nat, others: seq<RegOp>)
    requires |others| == 0
    ensures Heard(meddle, from, from, others)
  {
  }

  lemma {:induction false} QuietTries(meddle: nat -> seq<RegOp>, from: nat, to: nat)
    requires Quiet(meddle)
    ensures |Tried(meddle, from, to)| == 0
  {
    if from < to {
      QuietTries(meddle, from, to - 1);
      assert meddle(to - 1) == [];
    }
  }

  lemma QuietHeard(meddle: nat -> seq<RegOp>, from: nat, to: nat, others: seq<RegOp>)
    requires Quiet(meddle) && Heard(meddle, from, to, others)
    ensures |others| == 0
  {
    hide Quiet;
    QuietTries(meddle, from, to);
  }

  lemma {:induction false} ApplyMore(ms: seq<Machine>, a: seq<RegOp>, b: seq<RegOp>)
    ensures ApplyAll(ms, a + b) == ApplyAll(ApplyAll(ms, a), b)
  {
    hide Apply;
    if |b| == 0 {
      assert a + b == a;
    } else {
      assert (a + b)[..|a + b| - 1] == a + b[..|b| - 1];
      ApplyMore(ms, a, b[..|b| - 1]);
    }
  }

  /** Without the slots in progress a machine has no more reserved. */
  lemma BareHasLess(ms: seq<Machine>, bare: seq<Machine>, base: seq<AllocRecord>, taken: seq<Slot>, none: seq<Slot>)
    requires Conserved(ms, base, taken) && Conserved(bare, base, none) && |none| == 0 && SameShape(ms, bare)
    ensures forall i :: 0 <= i < |ms| ==> bare[i].reserved.AtMost(ms[i].reserved)
  {
    hide SlotSum, TableSum, UniqueIds;
    forall i | 0 <= i < |ms| ensures bare[i].reserved.AtMost(ms[i].reserved) {
      assert Balanced(ms[i], base, taken) && Balanced(bare[i], base, none);
      SlotSumBounds(taken, ms[i].id);
      SlotSumNone(none, ms[i].id);
    }
  }

  lemma UpsertShape(ms: seq<Machine>, bare: seq<Machine>, m: Machine)
    requires SameShape(ms, bare) && Upserted(ms, m).1 == 0
    requires forall i :: 0 <= i < |ms| ==> bare[i].reserved.AtMost(ms[i].reserved)
    ensures SameShape(Upserted(ms, m).0, Upserted(bare, m).0)
  {
    SameFind(ms, bare, m.id);
    hide AcceptableMachine;
    var i := Find(ms, m.id);
    if i < |ms| { assert bare[i].reserved.Plus(m.Floor()).AtMost(m.total); }
    hide Find;
  }

  lemma RemoveShape(ms: seq<Machine>, bare: seq<Machine>, id: string)
    requires SameShape(ms, bare) && Removed(ms, id).1 == 0
    requires forall i :: 0 <= i < |ms| ==> bare[i].reserved.AtMost(ms[i].reserved)
    ensures SameShape(Removed(ms, id).0, Removed(bare, id).0)
  {
    SameFind(ms, bare, id);
    hide Find;
    var i, n := Find(ms, id), |ms| - 1;
    assert bare[i].reserved.AtMost(ZERO);
    var a, b := Removed(ms, id).0, Removed(bare, id).0;
    forall k | 0 <= k < n ensures a[k] == b[k].(reserved := a[k].reserved) {
      assert a[k] == ms[if k == i then n else k] && b[k] == bare[if k == i then n else k];
    }
  }

  lemma ProbeShape(ms: seq<Machine>, bare: seq<Machine>, id: string, status: MachineStatus, time: int, reachable: int)
    requires SameShape(ms, bare)
    ensures SameShape(Probed(ms, id, status, time, reachable).0, Probed(bare, id, status, time, reachable).0)
  {
    SameFind(ms, bare, id);
    hide Find;
  }

  lemma TookShape(ms: seq<Machine>, bare: seq<Machine>, op: RegOp)
    requires SameShape(ms, bare) && Took(ms, op)
    requires forall i :: 0 <= i < |ms| ==> bare[i].reserved.AtMost(ms[i].reserved)
    ensures SameShape(Apply(ms, op), Apply(bare, op))
  {
    hide SameShape, Upserted, Removed, Probed;
    match op
    case Upsert(m) => UpsertShape(ms, bare, m);
    case Remove(id) => RemoveShape(ms, bare, id);
    case Probe(id, status, time, reachable) => ProbeShape(ms, bare, id, status, time, reachable);
  }

  lemma RefusedChangesNothing(ms: seq<Machine>, op: RegOp)
    requires !Took(ms, op)
    ensures Apply(ms, op) == ms
  {
  }

  lemma OneOther(ms: seq<Machine>, bare: seq<Machine>, base: seq<AllocRecord>, taken: seq<Slot>, op: RegOp)
    requires Conserved(ms, base, taken) && Conserved(bare, base, []) && SameShape(ms, bare) && Blank(op)
    ensures Conserved(Apply(ms, op), base, taken)
    ensures Took(ms, op) ==> Conserved(Apply(bare, op), base, []) && SameShape(Apply(ms, op), Apply(bare, op))
    ensures !Took(ms, op) ==> Apply(ms, op) == ms
  {
    BareHasLess(ms, bare, base, taken, []);
    hide Conserved, Apply, Took, SameShape;
    OpKeeps(ms, base, taken, op);
    if Took(ms, op) {
      TookShape(ms, bare, op);
      OpKeeps(bare, base, [], op);
    } else {
      RefusedChangesNothing(ms, op);
    }
  }

  /** What took effect on the table as it is would have had the same effect had this call booked nothing. */
  lemma {:induction false} OthersEffect(ms: seq<Machine>, bare: seq<Machine>, base: seq<AllocRecord>,
                                       taken: seq<Slot>, ops: seq<RegOp>)
    requires Conserved(ms, base, taken) && Conserved(bare, base, []) && SameShape(ms, bare)
    requires forall op :: op in ops ==> Blank(op)
    ensures Conserved(ApplyAll(ms, ops), base, taken)
    ensures Conserved(ApplyAll(bare, Effective(ms, ops)), base, [])
    ensures SameShape(ApplyAll(ms, ops), ApplyAll(bare, Effective(ms, ops)))
  {
    hide Conserved, Apply, Took, SameShape, Blank;
    if |ops| == 0 {
      ApplyNone(ms, ops);
      ApplyNone(bare, Effective(ms, ops));
    } else {
      var front, last := ops[..|ops| - 1], ops[|ops| - 1];
      OthersEffect(ms, bare, base, taken, front);
      var e := Effective(ms, front);
      OneOther(ApplyAll(ms, front), ApplyAll(bare, e), base, taken, last);
      ApplyOne(bare, e, last);
      assert e + [] == e;
    }
  }

  lemma ApplyOne(ms: seq<Machine>, e: seq<RegOp>, op: RegOp)
    ensures ApplyAll(ms, e + [op]) == Apply(ApplyAll(ms, e), op)
  {
    hide Apply;
    assert (e + [op])[..|e|] == e;
  }

  lemma TracksMeddle(ms: seq<Machine>, started: seq<Machine>, others: seq<RegOp>, base: seq<AllocRecord>,
                     taken: seq<Slot>, ops: seq<RegOp>)
    requires Tracks(ms, started, others, base) && Conserved(ms, base, taken) && forall op :: op in ops ==> Blank(op)
    ensures Conserved(ApplyAll(ms, ops), base, taken)
    ensures Tracks(ApplyAll(ms, ops), started, others + Effective(ms, ops), base)
  {
    hide Conserved, SameShape, ApplyAll, Effective, Blank;
    OthersEffect(ms, ApplyAll(started, others), base, taken, ops);
    ApplyMore(started, others, Effective(ms, ops));
  }

  lemma TracksShape(ms: seq<Machine>, after: seq<Machine>, started: seq<Machine>, others: seq<RegOp>, base: seq<AllocRecord>)
    requires Tracks(ms, started, others, base) && SameShape(after, ms)
    ensures Tracks(after, started, others, base)
  {
    hide Conserved, ApplyAll;
    SameShapeTrans(after, ms, ApplyAll(started, others));
  }

  lemma TracksSpare(ms: seq<Machine>, started: seq<Machine>, others: seq<RegOp>, table: seq<AllocRecord>,
                    base: seq<AllocRecord>, i: nat)
    requires Tracks(ms, started, others, table) && Spare(table, base, i)
    ensures Tracks(ms, started, others, base)
  {
    hide Conserved, SameShape, ApplyAll, Spare;
    SpareKeepsBooks(ApplyAll(started, others), table, base, i, []);
  }

  lemma TracksStart(ms: seq<Machine>, none: seq<RegOp>, base: seq<AllocRecord>)
    requires Conserved(ms, base, []) && |none| == 0
    ensures Tracks(ms, ms, none, base)
  {
    hide Conserved;
    ApplyNone(ms, none);
  }

  /** Once nothing of this call is booked any more, all that is left is what the others did. */
  lemma TracksDecide(ms: seq<Machine>, started: seq<Machine>, others: seq<RegOp>, base: seq<AllocRecord>)
    requires Tracks(ms, started, others, base) && Conserved(ms, base, [])
    ensures ms == ApplyAll(started, others)
  {
    hide Conserved, ApplyAll, SameShape;
    BooksDecide(ms, ApplyAll(started, others), base, []);
  }

  lemma TracksMeans(ms: seq<Machine>, started: seq<Machine>, others: seq<RegOp>, base: seq<AllocRecord>)
    requires Tracks(ms, started, others, base)
    ensures SameShape(ms, ApplyAll(started, others))
  {
  }

  lemma NothingFromOthers(meddle: nat -> seq<RegOp>, from: nat, to: nat, others: seq<RegOp>, ms: seq<Machine>)
    requires Heard(meddle, from, to, others)
    ensures Quiet(meddle) ==> others == [] && ApplyAll(ms, others) == ms
  {
    hide Heard, Quiet;
    if Quiet(meddle) {
      QuietHeard(meddle, from, to, others);
      ApplyNone(ms, others);
    }
  }

  lemma SameShapeSelf(ms: seq<Machine>)
    ensures SameShape(ms, ms)
  {
  }

  /** The slot's machine is registered, enabled and online, and has what the slot asks for to spare. */
  ghost predicate HasRoom(ms: seq<Machine>, s: Slot) {
    exists i :: 0 <= i < |ms| && ms[i].id == s.machine && RoomOn(ms[i], s.need)
  }

  ghost predicate RoomOn(m: Machine, need: Res) {
    && m.enabled && m.probe == Online
    && 0 <= need.cores <= m.total.cores - m.reserved.cores - m.minCores
    && 0 <= need.gpu <= m.total.gpu - m.reserved.gpu
    && 0 <= need.ram <= m.total.ram - m.reserved.ram - m.minRam
    && 0 <= need.disk <= m.total.disk - m.reserved.disk - m.minDisk
  }

  /** ... in the table as it was at some point of the call, when the others had done the first `n` of what they did. */
  ghost predicate HadRoom(started: seq<Machine>, others: seq<RegOp>, s: Slot) {
    exists n :: 0 <= n <= |others| && HasRoom(ApplyAll(started, others[..n]), s)
  }

  ghost predicate AllHadRoom(started: seq<Machine>, others: seq<RegOp>, slots: seq<Slot>) {
    forall s :: s in slots ==> HadRoom(started, others, s)
  }

  lemma HadRoomStill(started: seq<Machine>, others: seq<RegOp>, more: seq<RegOp>, slots: seq<Slot>)
    requires AllHadRoom(started, others, slots) && others <= more
    ensures AllHadRoom(started, more, slots)
  {
    hide HasRoom, ApplyAll;
    forall s | s in slots ensures HadRoom(started, more, s) {
      assert HadRoom(started, others, s);
      var n :| 0 <= n <= |others| && HasRoom(ApplyAll(started, others[..n]), s);
      assert more[..n] == others[..n];
    }
  }

  /** A slot the registry grants now: without the slots in progress its machine has no less to spare. */
  lemma GrantHasRoom(ms: seq<Machine>, started: seq<Machine>, others: seq<RegOp>, base: seq<AllocRecord>,
                     taken: seq<Slot>, s: Slot)
    requires Tracks(ms, started, others, base) && Conserved(ms, base, taken) && Reserved(ms, s.machine, s.need).1 == 0
    ensures HadRoom(started, others, s)
  {
    var bare := ApplyAll(started, others);
    BareHasLess(ms, bare, base, taken, []);
    ReservedMeans(ms, s.machine, s.need);
    hide Conserved, ApplyAll, Reserved;
    var i := Find(ms, s.machine);
    assert bare[i].id == s.machine && RoomOn(bare[i], s.need);
    assert HasRoom(bare, s);
    assert others[..|others|] == others;
  }

  lemma SlotsMore(started: seq<Machine>, others: seq<RegOp>, slots: seq<Slot>, s: Slot)
    requires AllHadRoom(started, others, slots) && HadRoom(started, others, s)
    ensures AllHadRoom(started, others, slots + [s])
  {
    hide HadRoom;
  }

  /** The machines with `slots` given back. */
  function ReleasedAll(ms: seq<Machine>, slots: seq<Slot>): seq<Machine>
    decreases |slots|
  {
    if |slots| == 0 then ms else ReleasedAll(Released(ms, slots[0].machine, slots[0].need).0, slots[1..])
  }

  lemma ReleasedShape(ms: seq<Machine>, id: string, need: Res)
    ensures SameShape(Released(ms, id, need).0, ms)
  {
  }

  lemma {:induction false} ReleasedAllKeeps(ms: seq<Machine>, base: seq<AllocRecord>, slots: seq<Slot>)
    requires Conserved(ms, base, slots)
    ensures Conserved(ReleasedAll(ms, slots), base, []) && SameShape(ms, ReleasedAll(ms, slots))
    decreases |slots|
  {
    hide Conserved, Released;
    if |slots| == 0 {
      assert slots == [];
    } else {
      var after := Released(ms, slots[0].machine, slots[0].need).0;
      assert slots == [slots[0]] + slots[1..];
      ReleaseKeeps(ms, base, slots[0], slots[1..]);
      ReleasedAllKeeps(after, base, slots[1..]);
      ReleasedShape(ms, slots[0].machine, slots[0].need);
    }
  }

  /** Slots already taken on other machines do not change what this machine grants. */
  lemma GrantedAlike(was: seq<Machine>, ms: seq<Machine>, base: seq<AllocRecord>, none: seq<Slot>, taken: seq<Slot>, s: Slot)
    requires none == [] && Conserved(was, base, none) && Conserved(ms, base, taken) && SameShape(ms, was)
    requires NoSlotOn(s.machine, taken)
    ensures Reserved(ms, s.machine, s.need).1 == Reserved(was, s.machine, s.need).1
  {
    hide SlotSum, TableSum, AllBacked, UniqueIds;
    SameFind(ms, was, s.machine);
    var i := Find(ms, s.machine);
    if i < |ms| {
      SlotSumNone(none, s.machine);
      NoSlotSumsToZero(taken, s.machine);
      assert Balanced(ms[i], base, taken) && Balanced(was[i], base, none);
      assert ms[i] == was[i];
    }
  }

  class Allocator {
    const registry: Registry
    var table: seq<AllocRecord>
    var rows: Rows
    var clock: nat               // numbers the gaps in which other threads may act
    ghost var closing: multiset<Id>

    // Of the call in progress: what the table would be without it and the others, what the others have done since,
    // and the gap it began with.
    ghost var started: seq<Machine>
    ghost var others: seq<RegOp>
    ghost var since: nat

    ghost predicate Inv()
      reads this, registry, registry.data
    {
      registry.Valid() && Consistent(registry.Machines(), table, rows, closing)
    }

    /** The table as the others alone would have left it. */
    ghost function Bare(): seq<Machine>
      reads this
    {
      ApplyAll(started, others)
    }

    ghost predicate Tracked(meddle: nat -> seq<RegOp>, base: seq<AllocRecord>)
      reads this, registry, registry.data
    {
      && registry.Valid() && AllBlank(meddle) && Heard(meddle, since, clock, others)
      && Tracks(registry.Machines(), started, others, base)
    }

    /** At startup, when recovery has closed every row. */
    constructor (registry: Registry, rows: Rows)
      requires registry.Valid() && Conserved(registry.Machines(), [], []) && forall k :: k in rows ==> !rows[k].open
      ensures Inv() && this.registry == registry && table == [] && this.rows == rows && closing == multiset{}
    {
      this.registry, table, this.rows, clock, closing := registry, [], rows, 0, multiset{};
      started, others, since := [], [], 0;
    }

    /** Begins a call that is to give back `slots`, of no record in `base` any more. */
    ghost method Begin(meddle: nat -> seq<RegOp>, base: seq<AllocRecord>, slots: seq<Slot>)
      requires registry.Valid() && AllBlank(meddle) && Conserved(registry.Machines(), base, slots)
      modifies this`started, this`others, this`since
      ensures Tracked(meddle, base) && started == ReleasedAll(registry.Machines(), slots) == Bare() && since == clock
      ensures SameShape(registry.Machines(), Bare())
      ensures slots == [] ==> started == registry.Machines()
    {
      hide Conserved, Tracks, Heard, ApplyAll, SameShape;
      started, others, since := ReleasedAll(registry.Machines(), slots), [], clock;
      HeardNothing(meddle, clock, others);
      ReleasedAllKeeps(registry.Machines(), base, slots);
      TracksStart(started, others, base);
      TracksShape(started, registry.Machines(), started, others, base);
      ApplyNone(started, others);
    }

    /** Some other threads' registry operations, whatever they are. */
    method Meddle(meddle: nat -> seq<RegOp>, ghost base: seq<AllocRecord>, ghost taken: seq<Slot>)
      requires Tracked(meddle, base) && Conserved(registry.Machines(), base, taken)
      modifies this`clock, this`others, registry, registry.data
      ensures Tracked(meddle, base) && Conserved(registry.Machines(), base, taken) && old(others) <= others
      ensures Quiet(meddle) ==> registry.Machines() == old(registry.Machines())
    {
      hide Conserved, Tracks, Heard, Effective, ApplyAll, Blank;
      var ops := meddle(clock);
      ghost var ms := registry.Machines();
      TracksMeddle(ms, started, others, base, taken, ops);
      HeardMore(meddle, since, clock, others, ms);
      registry.Interfere(ops);
      others := others + Effective(ms, ops);
      clock := clock + 1;
      if Quiet(meddle) { ApplyNone(ms, ops); }
    }

    /** Finds a record for `job`: none if it has one already, else an unused one or one more. */
    method Acquire(job: Id) returns (i: int, ghost base: seq<AllocRecord>)
      modifies this`table
      ensures i < 0 ==> table == old(table) && HasRecord(old(table), job)
      ensures i >= 0 ==> !HasRecord(old(table), job) && Spare(old(table), base, i)
                         && table == base[i := AllocRecord(job, [], true)]
    {
      var k := 0;
      while k < |table|
        invariant k <= |table| && table == old(table)
        invariant forall l :: 0 <= l < k ==> !(table[l].active && table[l].job == job)
      {
        if table[k].active && table[k].job == job { return -1, table; }
        k := k + 1;
      }
      i := 0;
      while i < |table|
        invariant 0 <= i <= |table| && table == old(table)
        invariant forall l :: 0 <= l < i ==> table[l].active
      {
        if !table[i].active {
          base := table[i := EMPTY];
          table := table[i := AllocRecord(job, [], true)];
          return;
        }
        i := i + 1;
      }
      base := table + [EMPTY];
      table := table + [AllocRecord(job, [], true)];
      assert base[..i] == old(table);
      assert table == base[i := AllocRecord(job, [], true)];
    }

    /** Gives back `slots`, oldest first. */
    method ReleaseSlots(slots: seq<Slot>, meddle: nat -> seq<RegOp>, ghost base: seq<AllocRecord>)
      requires Tracked(meddle, base) && Conserved(registry.Machines(), base, slots)
      modifies this`clock, this`others, registry, registry.data
      ensures Tracked(meddle, base) && Conserved(registry.Machines(), base, []) && old(others) <= others
      ensures Quiet(meddle) ==> SameShape(registry.Machines(), old(registry.Machines()))
    {
      hide Conserved, Tracks, Heard, Quiet, SameShape, Released;
      ghost var was := registry.Machines();
      SameShapeSelf(was);
      var j := 0;
      while j < |slots|
        invariant j <= |slots| && Tracked(meddle, base) && old(others) <= others
        invariant Conserved(registry.Machines(), base, slots[j..])
        invariant Quiet(meddle) ==> SameShape(registry.Machines(), was)
      {
        Meddle(meddle, base, slots[j..]);
        assert slots[j..] == [slots[j]] + slots[j + 1..];
        ghost var now := registry.Machines();
        ReleaseKeeps(now, base, slots[j], slots[j + 1..]);
        var r := registry.Release(slots[j].machine, slots[j].need);
        assert r == 0;
        ReleasedShape(now, slots[j].machine, slots[j].need);
        TracksShape(now, registry.Machines(), started, others, base);
        if Quiet(meddle) { SameShapeTrans(registry.Machines(), now, was); }
        j := j + 1;
      }
      assert slots[j..] == [];
    }

    /** Takes `slots` in order; if one is refused, gives back those already taken. */
    method ReserveSlots(slots: seq<Slot>, meddle: nat -> seq<RegOp>, ghost base: seq<AllocRecord>) returns (ok: bool)
      requires Tracked(meddle, base) && Conserved(registry.Machines(), base, [])
      requires DistinctMachines(slots) && forall s :: s in slots ==> s.need.cores >= 1
      modifies this`clock, this`others, registry, registry.data
      ensures Tracked(meddle, base) && Conserved(registry.Machines(), base, if ok then slots else [])
      ensures Quiet(meddle) ==> SameShape(registry.Machines(), old(registry.Machines()))
      ensures Quiet(meddle) ==>
                (ok <==> forall s :: s in slots ==> Reserved(old(registry.Machines()), s.machine, s.need).1 == 0)
      ensures old(others) <= others && (ok ==> AllHadRoom(started, others, slots))
    {
      hide Conserved, Reserved, Tracks, Heard, Quiet, SameShape, AllHadRoom, HadRoom;
      NoSlotsHadRoom(started, others, slots[..0]);
      ghost var was := registry.Machines();
      SameShapeSelf(was);
      var k := 0;
      while k < |slots|
        invariant k <= |slots| && Tracked(meddle, base)
        invariant Conserved(registry.Machines(), base, slots[..k])
        invariant Quiet(meddle) ==> SameShape(registry.Machines(), was)
        invariant Quiet(meddle) ==> forall s :: s in slots[..k] ==> Reserved(was, s.machine, s.need).1 == 0
        invariant old(others) <= others && AllHadRoom(started, others, slots[..k])
      {
        ghost var heard := others;
        Meddle(meddle, base, slots[..k]);
        HadRoomStill(started, heard, others, slots[..k]);
        ghost var now := registry.Machines();
        if Quiet(meddle) { GrantedAlike(was, now, base, [], slots[..k], slots[k]); }
        var r := registry.Reserve(slots[k].machine, slots[k].need);
        ReservedShape(now, slots[k].machine, slots[k].need);
        TracksShape(now, registry.Machines(), started, others, base);
        if Quiet(meddle) { SameShapeTrans(registry.Machines(), now, was); }
        if r != 0 {
          assert registry.Machines() == now;
          ReleaseSlots(slots[..k], meddle, base);
          if Quiet(meddle) { SameShapeTrans(registry.Machines(), now, was); }
          return false;
        }
        assert slots[..k + 1] == slots[..k] + [slots[k]];
        ReserveKeeps(now, base, slots[..k], slots[k]);
        GrantHasRoom(now, started, others, base, slots[..k], slots[k]);
        SlotsMore(started, others, slots[..k], slots[k]);
        k := k + 1;
      }
      assert slots[..k] == slots;
      ok := true;
    }

    /** One transaction: the rows of all slots, or none. */
    method Persist(job: Id, slots: seq<Slot>, commits: bool) returns (ok: bool)
      modifies this`rows
      ensures ok == commits && rows == if ok then Inserted(old(rows), job, slots) else old(rows)
    {
      var before := rows;
      var i := 0;
      while i < |slots|
        invariant i <= |slots| && rows == Inserted(before, job, slots[..i])
      {
        assert slots[..i + 1][..i] == slots[..i];
        rows := rows[(job, slots[i].machine) := Row(slots[i].need, true)];
        i := i + 1;
      }
      assert slots[..i] == slots;
      if !commits { rows := before; }
      ok := commits;
    }

    /** Persists the record at `i`, whose slots are taken; if that fails, gives everything back. */
    method PersistOrDiscard(i: nat, commits: bool, meddle: nat -> seq<RegOp>,
                            ghost before: seq<AllocRecord>, ghost base: seq<AllocRecord>) returns (ok: bool)
      requires Tracked(meddle, base)
      requires Spare(before, base, i) && i < |table| && table == base[i := table[i]] && table[i].active
      requires Conserved(registry.Machines(), base, table[i].slots)
      requires Filed(before) && RowsMatch(before, rows, closing)
      requires !HasRecord(before, table[i].job) && closing[table[i].job] == 0
      requires 1 <= |table[i].slots| <= MAX_MACHINES_PER_JOB && DistinctMachines(table[i].slots)
      modifies this`table, this`rows, this`clock, this`others, registry, registry.data
      ensures Inv() && Tracked(meddle, base) && ok == commits
      ensures forall j :: SlotsOf(table, j) ==
                            if ok && j == old(table[i].job) then old(table[i].slots) else SlotsOf(before, j)
      ensures ok ==> registry.Machines() == old(registry.Machines()) && others == old(others)
      ensures rows == if ok then Inserted(old(rows), old(table[i].job), old(table[i].slots)) else old(rows)
      ensures !ok ==> registry.Machines() == Bare()
    {
      hide Inserted, Conserved, Filed, RowsMatch, SlotsOf, HasRecord, DistinctMachines, Quiet, Tracks, Heard, ApplyAll;
      ghost var record, before_rows := table[i], rows;
      ok := Persist(table[i].job, table[i].slots, commits);
      if ok {
        assert table == base[i := record];
        Commit(registry.Machines(), before, base, i, record, before_rows, closing);
        assert forall j :: SlotsOf(table, j) == if j == record.job then record.slots else SlotsOf(before, j);
      } else {
        ReleaseSlots(table[i].slots, meddle, base);
        TracksDecide(registry.Machines(), started, others, base);
        PutAway(i, before, base);
      }
    }

    /** Takes the slots written into the record at `i` and persists them, or puts the record away. */
    method Settle(i: nat, commits: bool, meddle: nat -> seq<RegOp>,
                  ghost before: seq<AllocRecord>, ghost base: seq<AllocRecord>) returns (ok: bool)
      requires Tracked(meddle, base) && Conserved(registry.Machines(), base, [])
      requires Spare(before, base, i) && i < |table| && table == base[i := table[i]] && table[i].active
      requires Filed(before) && RowsMatch(before, rows, closing)
      requires !HasRecord(before, table[i].job) && closing[table[i].job] == 0
      requires 1 <= |table[i].slots| <= MAX_MACHINES_PER_JOB && DistinctMachines(table[i].slots)
      requires forall s :: s in table[i].slots ==> s.need.cores >= 1
      modifies this`table, this`rows, this`clock, this`others, registry, registry.data
      ensures Inv() && Tracked(meddle, base)
      ensures forall j :: SlotsOf(table, j) ==
                            if ok && j == old(table[i].job) then old(table[i].slots) else SlotsOf(before, j)
      ensures rows == if ok then Inserted(old(rows), old(table[i].job), old(table[i].slots)) else old(rows)
      ensures !ok ==> registry.Machines() == Bare()
      ensures Quiet(meddle) ==> (ok <==> commits && Grantable(old(registry.Machines()), old(table[i].slots)))
      ensures ok ==> AllHadRoom(started, others, old(table[i].slots))
    {
      hide Inserted, Conserved, Filed, RowsMatch, SlotsOf, HasRecord, Reserved, SameShape, DistinctMachines, Quiet, Tracks,
        Heard, ApplyAll;
      hide AllHadRoom;
      ok := ReserveSlots(table[i].slots, meddle, base);
      if ok {
        ok := PersistOrDiscard(i, commits, meddle, before, base);
      } else {
        TracksDecide(registry.Machines(), started, others, base);
        PutAway(i, before, base);
      }
    }

    /** Reserves `need` on the machine named `id`. */
    method ReserveSingle(job: Id, id: string, need: Res, commits: bool, meddle: nat -> seq<RegOp>) returns (ok: bool)
      requires Inv() && Tracked(meddle, table) && closing[job] == 0 && need.cores >= 1
      modifies this`table, this`rows, this`clock, this`others, registry, registry.data
      ensures Inv() && registry.Valid() && Heard(meddle, since, clock, others)
      ensures SameShape(registry.Machines(), Bare())
      ensures forall j :: SlotsOf(table, j) == if ok && j == job then [Slot(id, need)] else SlotsOf(old(table), j)
      ensures ok ==> !HasRecord(old(table), job) && HadRoom(started, others, Slot(id, need))
      ensures rows == if ok then Inserted(old(rows), job, [Slot(id, need)]) else old(rows)
      ensures !ok ==> registry.Machines() == Bare()
      ensures Quiet(meddle) ==>
                (ok <==> commits && !HasRecord(old(table), job) && Reserved(old(registry.Machines()), id, need).1 == 0)
    {
      hide Inserted, Conserved, Filed, RowsMatch, SlotsOf, HasRecord, Reserved, Quiet, Tracks, Heard, ApplyAll, SameShape;
      ghost var before := table;
      ghost var base;
      var i;
      i, base := Acquire(job);
      TracksMeans(registry.Machines(), started, others, before);
      if i < 0 {
        TracksDecide(registry.Machines(), started, others, before);
        return false;
      }
      SpareKeepsBooks(registry.Machines(), before, base, i, []);
      TracksSpare(registry.Machines(), started, others, before, base, i);
      var slots := [Slot(id, need)];
      table := table[i := table[i].(slots := slots)];
      assert Grantable(registry.Machines(), slots) <==> Reserved(registry.Machines(), slots[0].machine, slots[0].need).1 == 0;
      hide Grantable, Spare, HadRoom;
      ok := Settle(i, commits, meddle, before, base);
      TracksMeans(registry.Machines(), started, others, base);
    }

    /** Reserves on the first machine of a snapshot that fits. */
    method AllocReserve(job: Id, need: Res, commits: bool, meddle: nat -> seq<RegOp>) returns (r: Option<string>)
      requires Inv() && AllBlank(meddle) && closing[job] == 0
      modifies this`table, this`rows, this`clock, this`started, this`others, this`since, registry, registry.data
      ensures Inv() && Heard(meddle, old(clock), clock, others)
      ensures SameShape(registry.Machines(), ApplyAll(old(registry.Machines()), others))
      ensures r.None? ==> registry.Machines() == ApplyAll(old(registry.Machines()), others)
      ensures forall j :: SlotsOf(table, j) == if r.Some? && j == job then [Slot(r.value, need)] else SlotsOf(old(table), j)
      ensures rows == if r.Some? then Inserted(old(rows), job, [Slot(r.value, need)]) else old(rows)
      ensures r.Some? ==> !HasRecord(old(table), job)
      ensures r.Some? ==> HadRoom(old(registry.Machines()), others, Slot(r.value, need))
      ensures Quiet(meddle) ==>
                var ms := old(registry.Machines()); var f := FirstFit(ms, need);
                && (r.Some? <==> commits && need.cores > 0 && need.NonNegative() && !HasRecord(old(table), job) && f < |ms|)
                && (r.Some? ==> r.value == ms[f].id)
                && (r.None? ==> registry.Machines() == ms)
    {
      hide Conserved, Filed, RowsMatch, SlotsOf, HasRecord, Reserved, CanFit, Quiet, Tracks, Heard, ApplyAll, SameShape;
      hide Inserted, HadRoom;
      Begin(meddle, table, []);
      if need.cores <= 0 { return None; }
      var ms := registry.Snapshot();
      var f := LocateFit(ms, need);
      if f == |ms| { return None; }
      GrantOfFit(ms, table, rows, closing, f, need);
      Meddle(meddle, table, []);
      var ok := ReserveSingle(job, ms[f].id, need, commits, meddle);
      NothingFromOthers(meddle, since, clock, others, ms);
      r := if ok then Some(ms[f].id) else None;
    }

    method LocateFit(ms: seq<Machine>, need: Res) returns (f: nat)
      ensures f == FirstFit(ms, need) && (f < |ms| ==> CanFit(ms[f], need))
    {
      hide CanFit;
      f := 0;
      while f < |ms| && !CanFit(ms[f], need)
        invariant f <= |ms| && forall k :: 0 <= k < f ==> !CanFit(ms[k], need)
        modifies {}
      {
        f := f + 1;
      }
    }

    /** Reserves on the machine asked for, if it fits. */
    method AllocReserveOn(job: Id, target: string, need: Res, commits: bool, meddle: nat -> seq<RegOp>) returns (ok: bool)
      requires Inv() && AllBlank(meddle) && closing[job] == 0
      modifies this`table, this`rows, this`clock, this`started, this`others, this`since, registry, registry.data
      ensures Inv() && Heard(meddle, old(clock), clock, others)
      ensures SameShape(registry.Machines(), ApplyAll(old(registry.Machines()), others))
      ensures !ok ==> registry.Machines() == ApplyAll(old(registry.Machines()), others)
      ensures forall j :: SlotsOf(table, j) == if ok && j == job then [Slot(target, need)] else SlotsOf(old(table), j)
      ensures rows == if ok then Inserted(old(rows), job, [Slot(target, need)]) else old(rows)
      ensures ok ==> !HasRecord(old(table), job)
      ensures ok ==> HadRoom(old(registry.Machines()), others, Slot(target, need))
      ensures Quiet(meddle) ==>
                var ms := old(registry.Machines()); var f := Find(ms, target);
                && (ok <==> commits && need.cores > 0 && need.NonNegative() && !HasRecord(old(table), job)
                            && f < |ms| && CanFit(ms[f], need))
                && (!ok ==> registry.Machines() == ms)
    {
      hide Conserved, Filed, RowsMatch, SlotsOf, HasRecord, Reserved, CanFit, Quiet, Tracks, Heard, ApplyAll, SameShape;
      hide Inserted, HadRoom;
      Begin(meddle, table, []);
      if need.cores <= 0 { return false; }
      var ms := registry.Snapshot();
      var f := registry.Locate(target);
      if f == |ms| || !CanFit(ms[f], need) { return false; }
      GrantOfFit(ms, table, rows, closing, f, need);
      Meddle(meddle, table, []);
      ok := ReserveSingle(job, target, need, commits, meddle);
      NothingFromOthers(meddle, since, clock, others, ms);
    }

    method AllocCanFit(need: Res) returns (fits: bool)
      requires registry.Valid()
      ensures fits <==> exists m :: m in registry.Machines() && CanFit(m, need)
      ensures var ms := registry.Machines();
        fits <==> exists i :: 0 <= i < |ms| && ms[i].enabled && ms[i].probe == Online
                    && (need.cores <= 0 || need.cores <= ms[i].total.cores - ms[i].reserved.cores - ms[i].minCores)
                    && (need.gpu <= 0 || need.gpu <= ms[i].total.gpu - ms[i].reserved.gpu)
                    && (need.ram <= 0 || need.ram <= ms[i].total.ram - ms[i].reserved.ram - ms[i].minRam)
                    && (need.disk <= 0 || need.disk <= ms[i].total.disk - ms[i].reserved.disk - ms[i].minDisk)
    {
      var ms := registry.Snapshot();
      forall m ensures CanFit(m, need) <==>
          && m.enabled && m.probe == Online
          && (need.cores <= 0 || need.cores <= m.total.cores - m.reserved.cores - m.minCores)
          && (need.gpu <= 0 || need.gpu <= m.total.gpu - m.reserved.gpu)
          && (need.ram <= 0 || need.ram <= m.total.ram - m.reserved.ram - m.minRam)
          && (need.disk <= 0 || need.disk <= m.total.disk - m.reserved.disk - m.minDisk)
      {
        CanFitMeans(m, need);
      }
      hide CanFit;
      var i := 0;
      while i < |ms|
        invariant i <= |ms| && forall k :: 0 <= k < i ==> !CanFit(ms[k], need)
        modifies {}
      {
        if CanFit(ms[i], need) { return true; }
        i := i + 1;
      }
      fits := false;
    }

    /** The counting loop: offering machines until their free cores suffice. */
    method CountCandidates(ms: seq<Machine>, cores: int) returns (picks: seq<nat>, available: int)
      ensures picks == Candidates(ms, 0, 0, 0, cores) && InRange(picks, |ms|) && available == FreeCores(ms, picks)
    {
      hide Free, Offers, FreeCores;
      picks, available := [], 0;
      var i, enough := 0, false;
      assert FreeCores(ms, picks) == 0 by { NothingMore(ms); }
      while i < |ms| && |picks| < MAX_MACHINES_PER_JOB && !enough
        invariant i <= |ms| && InRange(picks, |ms|) && available == FreeCores(ms, picks)
        invariant enough ==> picks == Candidates(ms, 0, 0, 0, cores)
        invariant !enough ==> Candidates(ms, 0, 0, 0, cores) == picks + Candidates(ms, i, available, |picks|, cores)
        modifies {}
      {
        CandidatesStep(ms, i, available, |picks|, cores);
        if Offers(ms[i]) {
          FreeCoresSnoc(ms, picks, i);
          available := available + Free(ms[i]).cores;
          picks := picks + [i];
          enough := available >= cores;
        }
        i := i + 1;
      }
    }

    method AllocCanFitMulti(need: Res) returns (n: nat)
      requires registry.Valid()
      ensures n == CanFitMulti(registry.Machines(), need)
    {
      if need.gpu > 0 { return 0; }
      var ms := registry.Snapshot();
      hide Free, Candidates, FreeCores;
      var picks, available := CountCandidates(ms, need.cores);
      if available < need.cores || |picks| == 0 { return 0; }
      var ramPer, diskPer := Share(need.ram, |picks|), Share(need.disk, |picks|);
      var k := 0;
      while k < |picks|
        invariant k <= |picks|
        invariant forall l :: 0 <= l < k ==> !(Free(ms[picks[l]]).ram < ramPer || Free(ms[picks[l]]).disk < diskPer)
        modifies {}
      {
        if Free(ms[picks[k]]).ram < ramPer || Free(ms[picks[k]]).disk < diskPer { return 0; }
        k := k + 1;
      }
      n := |picks|;
    }

    /** Puts the record at `i` away unused. */
    method PutAway(i: nat, ghost before: seq<AllocRecord>, ghost base: seq<AllocRecord>)
      requires registry.Valid() && Conserved(registry.Machines(), base, [])
      requires Spare(before, base, i) && i < |table| && table == base[i := table[i]]
      requires Filed(before) && RowsMatch(before, rows, closing)
      modifies this`table
      ensures Inv() && forall j :: SlotsOf(table, j) == SlotsOf(before, j)
    {
      hide Conserved, Filed, RowsMatch, SlotsOf, HasRecord;
      table := table[i := EMPTY];
      assert table == base;
      Abandon(registry.Machines(), before, base, i, rows, closing);
    }

    /** The picking loop: one slot per offering machine until the cores asked for are found. */
    method PickSlots(ms: seq<Machine>, cores: int) returns (slots: seq<Slot>, remaining: int)
      ensures slots == Take(ms, 0, cores, 0) && remaining == cores - CoresOf(slots)
    {
      hide Free, Offers, CoresOf;
      slots, remaining := [], cores;
      assert CoresOf(slots) == 0 by { NothingMore(ms); }
      var k := 0;
      while k < |ms| && |slots| < MAX_MACHINES_PER_JOB && remaining > 0
        invariant k <= |ms| && remaining == cores - CoresOf(slots)
        invariant Take(ms, 0, cores, 0) == slots + Take(ms, k, remaining, |slots|)
        modifies {}
      {
        TakeStep(ms, k, remaining, |slots|);
        if Offers(ms[k]) {
          var slot := Slot(ms[k].id, Res(Min(Free(ms[k]).cores, remaining), 0, 0, 0));
          CoresSnoc(slots, slot);
          slots := slots + [slot];
          remaining := remaining - slot.need.cores;
        }
        k := k + 1;
      }
    }

    /** The search of the snapshot for a picked machine. */
    method LocateIn(ms: seq<Machine>, id: string) returns (m: nat)
      ensures m == Find(ms, id)
    {
      m := 0;
      while m < |ms| && ms[m].id != id
        invariant m <= |ms| && forall l :: 0 <= l < m ==> ms[l].id != id
        modifies {}
      {
        m := m + 1;
      }
    }

    /** The sharing loop: every picked machine must have its share of RAM and disk to spare. */
    method ShareOut(ms: seq<Machine>, slots: seq<Slot>, ramPer: int, diskPer: int) returns (shared: seq<Slot>, ok: bool)
      ensures ok <==> forall k :: 0 <= k < |slots| ==> HasShare(ms, slots[k].machine, ramPer, diskPer)
      ensures ok ==> shared == Shared(slots, ramPer, diskPer)
    {
      hide HasShare, Find;
      shared := slots;
      var k := 0;
      while k < |slots|
        invariant k <= |slots| == |shared|
        invariant forall l :: 0 <= l < k ==> HasShare(ms, slots[l].machine, ramPer, diskPer)
        invariant forall l :: 0 <= l < k ==> shared[l] == Shared(slots, ramPer, diskPer)[l]
        invariant forall l :: k <= l < |slots| ==> shared[l] == slots[l]
        modifies {}
      {
        var m := LocateIn(ms, slots[k].machine);
        HasShareAt(ms, slots[k].machine, ramPer, diskPer);
        if m == |ms| || Free(ms[m]).ram < ramPer || Free(ms[m]).disk < diskPer { return shared, false; }
        shared := shared[k := shared[k].(need := shared[k].need.(ram := ramPer, disk := diskPer))];
        k := k + 1;
      }
      ok := true;
    }

    /** Picks machines and shares the request out over them. */
    method PlanMulti(ms: seq<Machine>, need: Res) returns (slots: seq<Slot>, ok: bool)
      requires need.cores > 0
      ensures ok <==> PlanWorks(ms, need, Take(ms, 0, need.cores, 0))
      ensures ok ==> slots == PlannedSlots(ms, need)
    {
      hide Free, Take, CoresOf, Shared, Share;
      var picked, remaining := PickSlots(ms, need.cores);
      TakeTakesNoMore(ms, need.cores);
      if remaining > 0 || |picked| == 0 { return [], false; }
      var ramPer, diskPer := Share(need.ram, |picked|), Share(need.disk, |picked|);
      slots, ok := ShareOut(ms, picked, ramPer, diskPer);
    }

    /** Prints the machine ids, comma-separated, into a buffer of 1024 bytes: it is never too small. */
    method PrintIds(slots: seq<Slot>) returns (text: string)
      requires |slots| <= MAX_MACHINES_PER_JOB && forall s :: s in slots ==> |s.machine| <= MAX_ID
      ensures text == Join(MachinesOf(slots)) && |text| < 1024
    {
      var ids := MachinesOf(slots);
      assert forall id :: id in ids ==> |id| <= MAX_ID;
      text := "";
      var i := 0;
      hide Join;
      assert text == Join(ids[..0]) by { NoIds(ids); }
      while i < |slots|
        invariant i <= |slots| && text == Join(ids[..i])
        modifies {}
      {
        var written := (if i > 0 then "," else "") + slots[i].machine;
        JoinSnoc(ids, i);
        assert forall id :: id in ids[..i + 1] ==> id in ids;
        JoinFits(ids[..i + 1]);
        if |written| >= 1024 - |text| { assert false; }
        text := text + written;
        i := i + 1;
      }
      assert ids[..i] == ids;
      JoinFits(ids);
    }

    /** Settles the planned record, which nothing has been taken for yet. */
    method SettleMulti(i: nat, need: Res, commits: bool, meddle: nat -> seq<RegOp>,
                       ghost before: seq<AllocRecord>, ghost base: seq<AllocRecord>) returns (ok: bool)
      requires Tracked(meddle, before) && Consistent(registry.Machines(), before, rows, closing)
      requires Spare(before, base, i) && i < |table| && table == base[i := table[i]] && table[i].active
      requires !HasRecord(before, table[i].job) && closing[table[i].job] == 0 && Covers(table[i].slots, need)
      requires forall s :: s in table[i].slots ==> s.need.cores >= 1
      modifies this`table, this`rows, this`clock, this`others, registry, registry.data
      ensures Inv() && Heard(meddle, since, clock, others) && SameShape(registry.Machines(), Bare())
      ensures forall j :: SlotsOf(table, j) ==
                            if ok && j == old(table[i].job) then old(table[i].slots) else SlotsOf(before, j)
      ensures rows == if ok then Inserted(old(rows), old(table[i].job), old(table[i].slots)) else old(rows)
      ensures !ok ==> registry.Machines() == Bare()
      ensures Quiet(meddle) ==> (ok <==> commits && Grantable(old(registry.Machines()), old(table[i].slots)))
      ensures ok ==> AllHadRoom(started, others, old(table[i].slots))
    {
      hide Conserved, Filed, RowsMatch, SlotsOf, HasRecord, Reserved, SameShape, DistinctMachines, Quiet, Tracks, Heard,
        ApplyAll, Inserted, Spare, Grantable, CoresOf, RamOf, DiskOf;
      SpareKeepsBooks(registry.Machines(), before, base, i, []);
      TracksSpare(registry.Machines(), started, others, before, base, i);
      ok := Settle(i, commits, meddle, before, base);
      TracksMeans(registry.Machines(), started, others, base);
    }

    /** Reserves over several machines, all or nothing. */
    method AllocReserveMulti(job: Id, need: Res, commits: bool, meddle: nat -> seq<RegOp>) returns (r: Option<string>)
      requires Inv() && AllBlank(meddle) && closing[job] == 0
      modifies this`table, this`rows, this`clock, this`started, this`others, this`since, registry, registry.data
      ensures Inv() && Heard(meddle, old(clock), clock, others)
      ensures SameShape(registry.Machines(), ApplyAll(old(registry.Machines()), others))
      ensures r.None? ==> registry.Machines() == ApplyAll(old(registry.Machines()), others)
      ensures forall j :: (r.None? || j != job) ==> SlotsOf(table, j) == SlotsOf(old(table), j)
      ensures rows == if r.Some? then Inserted(old(rows), job, SlotsOf(table, job)) else old(rows)
      ensures r.Some? ==> AllHadRoom(old(registry.Machines()), others, SlotsOf(table, job))
      ensures r.Some? ==> !HasRecord(old(table), job) && Covers(SlotsOf(table, job), need)
                          && r.value == Join(MachinesOf(SlotsOf(table, job))) && |r.value| < 1024
      ensures Quiet(meddle) && need.ram >= 0 && need.disk >= 0 ==>
                var n := CanFitMulti(old(registry.Machines()), need);
                && (r.Some? <==> commits && need.cores > 0 && !HasRecord(old(table), job) && n > 0)
                && (r.Some? ==>
                      CountedMachines(SlotsOf(table, job), old(registry.Machines()), need) && |SlotsOf(table, job)| == n)
      ensures Quiet(meddle) && r.None? ==> registry.Machines() == old(registry.Machines())
    {
      hide Conserved, Filed, RowsMatch, SlotsOf, HasRecord, PlanWorks, PlannedSlots, CountedMachines, CanFitMulti, Take,
        Grantable, Covers, Quiet, Tracks, Heard, ApplyAll, SameShape, Inserted, Spare, AllHadRoom;
      Begin(meddle, table, []);
      NotSpread(registry.Machines(), need);
      if need.gpu > 0 || need.cores <= 0 { return None; }
      var ms := registry.Snapshot();
      PlanFacts(ms, table, rows, closing, need);
      ghost var before := table;
      ghost var base;
      var i;
      i, base := Acquire(job);
      if i < 0 { return None; }
      var slots, ok := PlanMulti(ms, need);
      if ok {
        table := table[i := table[i].(slots := slots)];
        ok := SettleMulti(i, need, commits, meddle, before, base);
      } else {
        SpareKeepsBooks(ms, before, base, i, []);
        PutAway(i, before, base);
      }
      NothingFromOthers(meddle, since, clock, others, ms);
      if !ok { return None; }
      var text := PrintIds(slots);
      r := Some(text);
    }

    method LocateRecord(job: Id) returns (i: nat)
      ensures i == RecordOf(table, job)
    {
      i := 0;
      while i < |table| && !(table[i].active && table[i].job == job)
        invariant i <= |table|
        invariant forall l :: 0 <= l < i ==> !(table[l].active && table[l].job == job)
      {
        i := i + 1;
      }
    }

    /** The locked half of alloc_release: gives back the slots of the job's record and empties it. */
    method ReleaseRecord(job: Id, meddle: nat -> seq<RegOp>) returns (released: nat)
      requires Inv() && AllBlank(meddle)
      modifies this`table, this`clock, this`closing, this`started, this`others, this`since, registry, registry.data
      ensures Inv() && closing == old(closing) + multiset{job}
      ensures since == old(clock) && Heard(meddle, since, clock, others)
      ensures released == |SlotsOf(old(table), job)|
      ensures registry.Machines() == ApplyAll(ReleasedAll(old(registry.Machines()), SlotsOf(old(table), job)), others)
      ensures forall j :: SlotsOf(table, j) == if j == job then [] else SlotsOf(old(table), j)
    {
      hide Conserved, Filed, Quiet, RowsMatch, Tracks, Heard, ApplyAll, SameShape, SlotsOf, RecordOf, ReleasedAll;
      var i := LocateRecord(job);
      SlotsFound(table, job);
      if i == |table| {
        Begin(meddle, table, []);
        RowsClosingMore(table, rows, closing, job);
        closing := closing + multiset{job};
        return 0;
      }
      FreeRecord(registry.Machines(), table, rows, closing, i);
      released := |table[i].slots|;
      Begin(meddle, table[i := EMPTY], table[i].slots);
      ReleaseSlots(table[i].slots, meddle, table[i := EMPTY]);
      table := table[i := EMPTY];
      TracksDecide(registry.Machines(), started, others, table);
      closing := closing + multiset{job};
    }

    /** The unlocked half of alloc_release: marks the job's rows released. */
    method CloseRows(job: Id)
      requires Inv() && closing[job] > 0
      modifies this`rows, this`closing
      ensures Inv() && closing == old(closing) - multiset{job} && rows == Closed(old(rows), job)
    {
      hide Conserved, Filed, RowsMatch;
      assert closing == closing - multiset{job} + multiset{job};
      RowsAfterClose(table, rows, closing - multiset{job}, closing, job);
      rows := Closed(rows, job);
      closing := closing - multiset{job};
    }

    /** Whatever the others do meanwhile, exactly the job's slots are given back and its rows closed. */
    method AllocRelease(job: Id, meddle: nat -> seq<RegOp>) returns (released: nat)
      requires Inv() && AllBlank(meddle)
      modifies this`table, this`rows, this`clock, this`closing, this`started, this`others, this`since, registry, registry.data
      ensures Inv() && closing == old(closing) && Heard(meddle, old(clock), clock, others)
      ensures released == |SlotsOf(old(table), job)|
      ensures registry.Machines() == ApplyAll(ReleasedAll(old(registry.Machines()), SlotsOf(old(table), job)), others)
      ensures Quiet(meddle) ==> registry.Machines() == ReleasedAll(old(registry.Machines()), SlotsOf(old(table), job))
      ensures forall j :: SlotsOf(table, j) == if j == job then [] else SlotsOf(old(table), j)
      ensures rows == Closed(old(rows), job)
    {
      hide Conserved, Filed, RowsMatch, SlotsOf, Quiet, Heard, ApplyAll, ReleasedAll, Closed;
      released := ReleaseRecord(job, meddle);
      NothingFromOthers(meddle, since, clock, others, ReleasedAll(old(registry.Machines()), SlotsOf(old(table), job)));
      CloseRows(job);
    }

    /** Frees the table. With no record active nothing is lost; an active record would leave its cores taken for good. */
    method Shutdown()
      requires Inv() && forall j :: !HasRecord(table, j)
      modifies this`table
      ensures Inv() && table == []
      ensures forall i :: 0 <= i < |registry.Machines()| ==> registry.Machines()[i].reserved == ZERO
    {
      EmptyBooks(registry.Machines(), table, [], rows, closing);
      table := [];
    }
  }

  lemma ReservedShape(ms: seq<Machine>, id: string, need: Res)
    ensures var (after, r) := Reserved(ms, id, need);
            SameShape(after, ms) && (r != 0 ==> after == ms && r == -1) && (r == 0 ==> need.NonNegative())
  {
  }

  lemma SameShapeTrans(a: seq<Machine>, b: seq<Machine>, c: seq<Machine>)
    requires SameShape(a, b) && SameShape(b, c)
    ensures SameShape(a, c)
  {
  }

  lemma NoSlotsHadRoom(started: seq<Machine>, others: seq<RegOp>, slots: seq<Slot>)
    requires |slots| == 0
    ensures AllHadRoom(started, others, slots)
  {
  }

  lemma GrantOfFit(ms: seq<Machine>, table: seq<AllocRecord>, rows: Rows, closing: multiset<Id>, f: nat, need: Res)
    requires Consistent(ms, table, rows, closing) && f < |ms| && CanFit(ms[f], need)
    ensures need.NonNegative() <==> Reserved(ms, ms[f].id, need).1 == 0
  {
    hide SlotSum, TableSum, AllBacked;
    assert Balanced(ms[f], table, []);
    if need.NonNegative() { FitIsGranted(ms, f, need); }
  }

  /** The cores asked for exactly, RAM and disk at least as asked and by less than one unit per machine more. */
  ghost predicate Covers(slots: seq<Slot>, need: Res) {
    && 1 <= |slots| <= MAX_MACHINES_PER_JOB && DistinctMachines(slots)
    && CoresOf(slots) == need.cores
    && (need.ram >= 0 ==> need.ram <= RamOf(slots) < need.ram + |slots|)
    && (need.disk >= 0 ==> need.disk <= DiskOf(slots) < need.disk + |slots|)
  }

  /** The slots are on the machines alloc_can_fit_multi counts, in that order. */
  ghost predicate CountedMachines(slots: seq<Slot>, ms: seq<Machine>, need: Res) {
    var picks := Candidates(ms, 0, 0, 0, need.cores);
    |slots| == |picks| && forall k :: 0 <= k < |slots| ==> picks[k] < |ms| && slots[k].machine == ms[picks[k]].id
  }

  /** Everything the reserving code checks before it touches the registry. */
  ghost predicate PlanWorks(ms: seq<Machine>, need: Res, t: seq<Slot>) {
    && CoresOf(t) == need.cores && |t| > 0
    && forall k :: 0 <= k < |t| ==>
         HasShare(ms, t[k].machine, Share(need.ram, |t|), Share(need.disk, |t|))
  }

  /** Machine `id` of the snapshot has this much RAM and disk to spare. */
  predicate HasShare(ms: seq<Machine>, id: string, ram: int, disk: int) {
    var m := Find(ms, id);
    m < |ms| && Free(ms[m]).ram >= ram && Free(ms[m]).disk >= disk
  }

  lemma HasShareAt(ms: seq<Machine>, id: string, ram: int, disk: int)
    ensures var m := Find(ms, id);
      HasShare(ms, id, ram, disk) <==> m < |ms| && Free(ms[m]).ram >= ram && Free(ms[m]).disk >= disk
  {
  }

  ghost predicate Grantable(ms: seq<Machine>, slots: seq<Slot>) {
    forall s :: s in slots ==> Reserved(ms, s.machine, s.need).1 == 0
  }

  function PlannedSlots(ms: seq<Machine>, need: Res): seq<Slot> {
    var t := Take(ms, 0, need.cores, 0);
    if t == [] then [] else Shared(t, Share(need.ram, |t|), Share(need.disk, |t|))
  }

  lemma {:induction false} TakeTakesNoMore(ms: seq<Machine>, cores: int)
    requires cores > 0
    ensures CoresOf(Take(ms, 0, cores, 0)) <= cores
  {
    TakeMatchesCandidates(ms, 0, 0, 0, cores);
  }

  /** The plan works exactly when alloc_can_fit_multi says so, on as many machines. */
  lemma PlanIsCounted(ms: seq<Machine>, need: Res)
    requires UniqueIds(ms) && need.cores > 0 && need.gpu <= 0
    ensures var t := Take(ms, 0, need.cores, 0);
            && (PlanWorks(ms, need, t) <==> CanFitMulti(ms, need) > 0)
            && (PlanWorks(ms, need, t) ==> CanFitMulti(ms, need) == |t|)
  {
    TakenAreDistinct(ms, need.cores);
    var t, c := Take(ms, 0, need.cores, 0), Candidates(ms, 0, 0, 0, need.cores);
    if t == [] { assert CoresOf(t) == 0; }
    hide Take, Candidates, CoresOf, FreeCores, Free, Share, TakesFrom;
    if PlanWorks(ms, need, t) {
      forall k | 0 <= k < |c| ensures Free(ms[c[k]]).ram >= Share(need.ram, |c|) && Free(ms[c[k]]).disk >= Share(need.disk, |c|) {
        assert Find(ms, t[k].machine) == c[k];
      }
    }
  }

  /** What a working plan asks of each machine. */
  lemma PlannedSlotsFit(ms: seq<Machine>, need: Res)
    requires UniqueIds(ms) && need.cores > 0 && PlanWorks(ms, need, Take(ms, 0, need.cores, 0))
    ensures var slots, c := PlannedSlots(ms, need), Candidates(ms, 0, 0, 0, need.cores);
            && |slots| == |c| <= MAX_MACHINES_PER_JOB && |slots| > 0
            && DistinctMachines(slots) && CountedMachines(slots, ms, need)
            && (forall k :: 0 <= k < |slots| ==>
                  && c[k] < |ms| && slots[k].machine == ms[c[k]].id && Offers(ms[c[k]])
                  && slots[k].need.gpu == 0 && 1 <= slots[k].need.cores <= Free(ms[c[k]]).cores
                  && slots[k].need.ram == Share(need.ram, |c|) <= Free(ms[c[k]]).ram
                  && slots[k].need.disk == Share(need.disk, |c|) <= Free(ms[c[k]]).disk)
  {
    TakenAreDistinct(ms, need.cores);
    CandidatesInRange(ms, 0, 0, 0, need.cores);
    var t, c, slots := Take(ms, 0, need.cores, 0), Candidates(ms, 0, 0, 0, need.cores), PlannedSlots(ms, need);
    hide Take, Candidates, CoresOf, FreeCores, Free, Share, Offers;
    forall k | 0 <= k < |slots|
      ensures Share(need.ram, |c|) <= Free(ms[c[k]]).ram && Share(need.disk, |c|) <= Free(ms[c[k]]).disk
      ensures slots[k] == t[k].(need := t[k].need.(ram := Share(need.ram, |c|), disk := Share(need.disk, |c|)))
    {
      assert Find(ms, t[k].machine) == c[k];
    }
  }

  lemma PlannedSlotsCover(ms: seq<Machine>, need: Res)
    requires UniqueIds(ms) && need.cores > 0 && PlanWorks(ms, need, Take(ms, 0, need.cores, 0))
    ensures Covers(PlannedSlots(ms, need), need)
  {
    PlannedSlotsFit(ms, need);
    var t := Take(ms, 0, need.cores, 0);
    hide Take, Candidates, CoresOf, RamOf, DiskOf, DistinctMachines, Share, Free;
    SharedTotals(t, Share(need.ram, |t|), Share(need.disk, |t|));
    if need.ram >= 0 { ShareBounds(need.ram, |t|); }
    if need.disk >= 0 { ShareBounds(need.disk, |t|); }
  }

  ghost predicate AllSound(ms: seq<Machine>) { forall i :: 0 <= i < |ms| ==> ms[i].Sound() }

  lemma PlannedSlotsGranted(ms: seq<Machine>, need: Res)
    requires UniqueIds(ms) && AllSound(ms) && need.cores > 0 && PlanWorks(ms, need, Take(ms, 0, need.cores, 0))
    ensures forall s :: s in PlannedSlots(ms, need) ==> s.need.cores >= 1 && |s.machine| <= MAX_ID
    ensures need.ram >= 0 && need.disk >= 0 ==> Grantable(ms, PlannedSlots(ms, need))
  {
    PlannedSlotsFit(ms, need);
    var slots, c := PlannedSlots(ms, need), Candidates(ms, 0, 0, 0, need.cores);
    if need.ram >= 0 { ShareBounds(need.ram, |c|); }
    if need.disk >= 0 { ShareBounds(need.disk, |c|); }
    hide PlanWorks, PlannedSlots, Candidates, Take, Share, Free, Offers, DistinctMachines, CountedMachines, Reserved;
    forall s | s in slots
      ensures s.need.cores >= 1 && |s.machine| <= MAX_ID
      ensures need.ram >= 0 && need.disk >= 0 ==> Reserved(ms, s.machine, s.need).1 == 0
    {
      var k :| 0 <= k < |slots| && slots[k] == s;
      if need.ram >= 0 && need.disk >= 0 { PlanIsGranted(ms, c[k], s); }
    }
  }

  lemma NotSpread(ms: seq<Machine>, need: Res)
    ensures need.gpu > 0 ==> CanFitMulti(ms, need) == 0
  {
  }

  lemma PlanFacts(ms: seq<Machine>, table: seq<AllocRecord>, rows: Rows, closing: multiset<Id>, need: Res)
    requires Consistent(ms, table, rows, closing) && need.cores > 0 && need.gpu <= 0
    ensures var works, slots := PlanWorks(ms, need, Take(ms, 0, need.cores, 0)), PlannedSlots(ms, need);
            && (works <==> CanFitMulti(ms, need) > 0)
            && (works ==>
                  && CanFitMulti(ms, need) == |slots| <= MAX_MACHINES_PER_JOB
                  && Covers(slots, need) && CountedMachines(slots, ms, need)
                  && (forall s :: s in slots ==> s.need.cores >= 1 && |s.machine| <= MAX_ID)
                  && (need.ram >= 0 && need.disk >= 0 ==> Grantable(ms, slots)))
  {
    assert UniqueIds(ms) && AllSound(ms) by { hide SlotSum, TableSum, AllBacked; }
    hide Conserved, Filed, RowsMatch, PlanWorks, CanFitMulti, Covers, CountedMachines, Grantable, Take, Share;
    PlanIsCounted(ms, need);
    if PlanWorks(ms, need, Take(ms, 0, need.cores, 0)) {
      PlannedSlotsFit(ms, need);
      PlannedSlotsCover(ms, need);
      PlannedSlotsGranted(ms, need);
    }
  }

  lemma SlotsFound(table: seq<AllocRecord>, job: Id)
    ensures SlotsOf(table, job) == if RecordOf(table, job) < |table| then table[RecordOf(table, job)].slots else []
    ensures RecordOf(table, job) < |table| ==> table[RecordOf(table, job)].active && table[RecordOf(table, job)].job == job
    ensures !HasRecord(table, job) ==> SlotsOf(table, job) == []
  {
  }

  /** What emptying the record at `i` will mean for the books. */
  lemma FreeRecord(ms: seq<Machine>, table: seq<AllocRecord>, rows: Rows, closing: multiset<Id>, i: nat)
    requires Consistent(ms, table, rows, closing) && i < |table| && table[i].active
    ensures var base := table[i := EMPTY];
            && Conserved(ms, base, table[i].slots) && Filed(base)
            && RowsMatch(base, rows, closing + multiset{table[i].job})
            && (forall j :: SlotsOf(base, j) == if j == table[i].job then [] else SlotsOf(table, j))
  {
    hide Conserved, SlotsOf, HasRecord, RowsMatch, Filed;
    var base := table[i := EMPTY];
    assert base[i := table[i]] == table;
    FileRecord(ms, base, i, table[i]);
    SlotsWithout(table, i);
    RowsAfterFree(table, rows, closing, i);
  }

  lemma EmptyBooks(ms: seq<Machine>, table: seq<AllocRecord>, none: seq<AllocRecord>, rows: Rows, closing: multiset<Id>)
    requires Consistent(ms, table, rows, closing) && none == [] && forall j :: !HasRecord(table, j)
    ensures Consistent(ms, none, rows, closing)
    ensures forall i :: 0 <= i < |ms| ==> ms[i].reserved == ZERO
  {
    forall j ensures !HasRecord(none, j) && SlotsOf(none, j) == [] && SlotsOf(table, j) == [] { assert !HasRecord(table, j); }
    forall i | 0 <= i < |table| ensures !table[i].active {
      assert !HasRecord(table, table[i].job);
    }
    hide SlotSum, TableSum, Balanced, SlotsOf, HasRecord;
    forall i | 0 <= i < |ms| ensures ms[i].reserved == ZERO && Balanced(ms[i], none, []) {
      SumsAreZero(ms[i].id, table, none, []);
      ZeroBalance(ms[i], table, []);
      ZeroBalance(ms[i], none, []);
    }
    assert Conserved(ms, none, []);
    hide Conserved;
  }

  lemma ZeroBalance(m: Machine, table: seq<AllocRecord>, extra: seq<Slot>)
    requires TableSum(table, m.id) == ZERO && SlotSum(extra, m.id) == ZERO
    ensures Balanced(m, table, extra) ==> m.Sound() && m.reserved == ZERO
    ensures m.Sound() && m.reserved == ZERO ==> Balanced(m, table, extra)
  {
    hide SlotSum, TableSum;
  }

  lemma SumsAreZero(id: string, table: seq<AllocRecord>, none: seq<AllocRecord>, extra: seq<Slot>)
    requires |extra| == 0 && |none| == 0 && forall i :: 0 <= i < |table| ==> !table[i].active
    ensures TableSum(table, id) == TableSum(none, id) == SlotSum(extra, id) == ZERO
  {
    hide SlotSum, TableSum;
    NoRecordSumsToZero(table, id);
    NoRecordSumsToZero(none, id);
    SlotSumNone(extra, id);
  }

  /** Releasing what was just reserved restores the registry, machine for machine. */
  lemma ReserveThenRelease(ms: seq<Machine>, id: string, need: Res)
    requires UniqueIds(ms) && AllSound(ms) && Reserved(ms, id, need).1 == 0
    ensures Released(Reserved(ms, id, need).0, id, need) == (ms, 0)
  {
    var i := Find(ms, id);
    var m := ms[i].(reserved := ms[i].reserved.Plus(need));
    assert ms[i].Sound();
    FindUpdated(ms, i, m, id);
    assert ms[i := m][i := ms[i]] == ms;
  }
}
