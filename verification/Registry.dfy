// Registry: the machine table and its reservation counters, one locked operation at a time.

module Registry {
  import opened Resources

  const MAX_MACHINES := 1024
  const MAX_ID := 63
  const INT_MAX := 0x7fff_ffff

  datatype MachineStatus = Online | Offline | Probing

  datatype Machine = Machine(
    id: string,
    enabled: bool,
    total: Res,
    reserved: Res,
    minCores: int,
    minRam: int,
    minDisk: int,
    probe: MachineStatus,
    lastProbe: int,
    failCount: int,
    cloud: bool)
  {
    /** What must stay free for the system; GPUs have no such floor. */
    function Floor(): Res { Res(minCores, 0, minRam, minDisk) }

    /** total - reserved - floor, as the registry computes it: unclamped. */
    function Headroom(): Res { total.Minus(reserved).Minus(Floor()) }

    predicate Available() { enabled && probe == Online }

    /** No over-commit. */
    predicate Sound() {
      && 0 < |id| <= MAX_ID
      && reserved.NonNegative() && Floor().NonNegative()
      && reserved.Plus(Floor()).AtMost(total)
      && total.AtMost(Res(INT_MAX, INT_MAX, INT_MAX, INT_MAX))
    }
  }

  predicate SafeChar(c: char) {
    'a' <= c <= 'z' || 'A' <= c <= 'Z' || '0' <= c <= '9' || c == '.' || c == '_' || c == '-' || c == ':'
  }

  predicate SafeText(s: string) { forall c <- s :: SafeChar(c) }

  predicate InIntRange(r: Res) {
    Res(-INT_MAX - 1, -INT_MAX - 1, -INT_MAX - 1, -INT_MAX - 1).AtMost(r) && r.AtMost(Res(INT_MAX, INT_MAX, INT_MAX, INT_MAX))
  }

  /** What the C types of a Machine's fields admit. */
  predicate Representable(m: Machine) {
    |m.id| <= MAX_ID && InIntRange(m.total) && InIntRange(m.reserved) && InIntRange(m.Floor())
  }

  predicate AcceptableMachine(m: Machine) {
    && m.id != "" && SafeText(m.id)
    && m.total.cores >= 1 && m.total.NonNegative() && m.Floor().NonNegative() && m.Floor().AtMost(m.total)
  }

  // ---------------------------------------------------------------- the table as a value

  /** Index of the first machine named `id`, or the length of the table. */
  function Find(ms: seq<Machine>, id: string): (r: nat)
    ensures r <= |ms|
    ensures r < |ms| ==> ms[r].id == id
    ensures forall k :: 0 <= k < r ==> ms[k].id != id
  {
    if ms == [] || ms[0].id == id then 0 else 1 + Find(ms[1..], id)
  }

  predicate Has(ms: seq<Machine>, id: string) { Find(ms, id) < |ms| }

  ghost predicate UniqueIds(ms: seq<Machine>) {
    forall i, j :: 0 <= i < j < |ms| ==> ms[i].id != ms[j].id
  }

  lemma {:induction false} FindIs(ms: seq<Machine>, id: string, i: nat)
    requires i <= |ms| && (i < |ms| ==> ms[i].id == id) && forall k :: 0 <= k < i ==> ms[k].id != id
    ensures Find(ms, id) == i
  {
    if i > 0 { FindIs(ms[1..], id, i - 1); }
  }

  lemma FindAt(ms: seq<Machine>, i: nat)
    requires UniqueIds(ms) && i < |ms|
    ensures Find(ms, ms[i].id) == i
  {
  }

  lemma FindInLonger(ms: seq<Machine>, m: Machine, id: string)
    ensures Find(ms + [m], id) == if Has(ms, id) then Find(ms, id) else if m.id == id then |ms| else |ms| + 1
  {
    var t, i := ms + [m], Find(ms, id);
    var r := Find(t, id);
    assert i < |ms| ==> t[i].id == id;
    assert t[|ms|] == m;
    if r < |ms| { assert t[r] == ms[r]; }
  }

  function Upserted(ms: seq<Machine>, m: Machine): (seq<Machine>, int) {
    if !AcceptableMachine(m) then (ms, -1)
    else
      var i := Find(ms, m.id);
      if i < |ms| then
        if !ms[i].reserved.Plus(m.Floor()).AtMost(m.total) then (ms, -2)
        else (ms[i := m.(reserved := ms[i].reserved, probe := ms[i].probe,
                         lastProbe := ms[i].lastProbe, failCount := ms[i].failCount)], 0)
      else if |ms| >= MAX_MACHINES then (ms, -1)
      else (ms + [m], 0)
  }

  function Removed(ms: seq<Machine>, id: string): (seq<Machine>, int) {
    var i := Find(ms, id);
    if i == |ms| then (ms, -1)
    else if !ms[i].reserved.AtMost(ZERO) then (ms, -2)
    else (ms[i := ms[|ms| - 1]][..|ms| - 1], 0)
  }

  function Reserved(ms: seq<Machine>, id: string, need: Res): (seq<Machine>, int) {
    if !need.NonNegative() then (ms, -1)
    else
      var i := Find(ms, id);
      if i < |ms| && ms[i].Available() && need.AtMost(ms[i].Headroom())
      then (ms[i := ms[i].(reserved := ms[i].reserved.Plus(need))], 0)
      else (ms, -1)
  }

  function ClampUp(r: Res): Res {
    Res(if r.cores < 0 then 0 else r.cores, if r.gpu < 0 then 0 else r.gpu,
        if r.ram < 0 then 0 else r.ram, if r.disk < 0 then 0 else r.disk)
  }

  function Released(ms: seq<Machine>, id: string, need: Res): (seq<Machine>, int) {
    if !need.NonNegative() then (ms, -1)
    else
      var i := Find(ms, id);
      if i < |ms| then (ms[i := ms[i].(reserved := ClampUp(ms[i].reserved.Minus(need)))], 0) else (ms, -1)
  }

  function Probed(ms: seq<Machine>, id: string, status: MachineStatus, time: int, reachable: int): (seq<Machine>, int) {
    var i := Find(ms, id);
    if i == |ms| then (ms, -1)
    else
      var count := if reachable > 0 then 0 else if reachable == 0 then ms[i].failCount + 1 else ms[i].failCount;
      (ms[i := ms[i].(probe := status, lastProbe := time, failCount := count)], 0)
  }

  /** A reservation on the fields of the machine it names. */
  lemma ReservedMeans(ms: seq<Machine>, id: string, need: Res)
    ensures var i := Find(ms, id); var (after, r) := Reserved(ms, id, need);
      && (r == 0 <==>
            && need.cores >= 0 && need.gpu >= 0 && need.ram >= 0 && need.disk >= 0
            && i < |ms| && ms[i].enabled && ms[i].probe == Online
            && need.cores <= ms[i].total.cores - ms[i].reserved.cores - ms[i].minCores
            && need.gpu <= ms[i].total.gpu - ms[i].reserved.gpu
            && need.ram <= ms[i].total.ram - ms[i].reserved.ram - ms[i].minRam
            && need.disk <= ms[i].total.disk - ms[i].reserved.disk - ms[i].minDisk)
      && (r == 0 || (r == -1 && after == ms))
      && (r == 0 ==>
            && |after| == |ms| && (forall k :: 0 <= k < |ms| && k != i ==> after[k] == ms[k])
            && after[i] == ms[i].(reserved := after[i].reserved)
            && after[i].reserved.cores == ms[i].reserved.cores + need.cores
            && after[i].reserved.gpu == ms[i].reserved.gpu + need.gpu
            && after[i].reserved.ram == ms[i].reserved.ram + need.ram
            && after[i].reserved.disk == ms[i].reserved.disk + need.disk)
  {
    hide Find;
  }

  /** A release on the fields: what is given back is taken off, but never below zero. */
  lemma ReleasedMeans(ms: seq<Machine>, id: string, need: Res)
    ensures var i := Find(ms, id); var (after, r) := Released(ms, id, need);
      && (r == 0 <==> need.cores >= 0 && need.gpu >= 0 && need.ram >= 0 && need.disk >= 0 && i < |ms|)
      && (r == 0 || (r == -1 && after == ms))
      && (r == 0 ==>
            var was, now := ms[i].reserved, after[i].reserved;
            && |after| == |ms| && (forall k :: 0 <= k < |ms| && k != i ==> after[k] == ms[k])
            && after[i] == ms[i].(reserved := now)
            && now.cores == (if was.cores > need.cores then was.cores - need.cores else 0)
            && now.gpu == (if was.gpu > need.gpu then was.gpu - need.gpu else 0)
            && now.ram == (if was.ram > need.ram then was.ram - need.ram else 0)
            && now.disk == (if was.disk > need.disk then was.disk - need.disk else 0))
  {
    hide Find;
  }

  /** A probe on the fields: the status and time it brings, and the failures counted on, kept, or forgotten. */
  lemma ProbedMeans(ms: seq<Machine>, id: string, status: MachineStatus, time: int, reachable: int)
    ensures var i := Find(ms, id); var (after, r) := Probed(ms, id, status, time, reachable);
      && (r == 0 <==> i < |ms|) && (r == 0 || (r == -1 && after == ms))
      && (r == 0 ==>
            && |after| == |ms| && (forall k :: 0 <= k < |ms| && k != i ==> after[k] == ms[k])
            && after[i] == ms[i].(probe := status, lastProbe := time, failCount := after[i].failCount)
            && (reachable > 0 ==> after[i].failCount == 0)
            && (reachable == 0 ==> after[i].failCount == ms[i].failCount + 1)
            && (reachable < 0 ==> after[i].failCount == ms[i].failCount))
  {
    hide Find;
  }

  /** An upsert on the fields: a known machine keeps its counters and probe state and takes everything else, unless what is
      reserved would not fit any more; a new one is appended as it is, while there is room. */
  lemma UpsertedMeans(ms: seq<Machine>, m: Machine)
    requires AcceptableMachine(m)
    ensures var i := Find(ms, m.id); var (after, r) := Upserted(ms, m);
      && (r == 0 <==>
            if i < |ms| then
              && ms[i].reserved.cores + m.minCores <= m.total.cores && ms[i].reserved.gpu <= m.total.gpu
              && ms[i].reserved.ram + m.minRam <= m.total.ram && ms[i].reserved.disk + m.minDisk <= m.total.disk
            else |ms| < 1024)
      && (r != 0 ==> after == ms)
      && (r == 0 && i == |ms| ==> after == ms + [m])
      && (r == 0 && i < |ms| ==>
            && |after| == |ms| && (forall k :: 0 <= k < |ms| && k != i ==> after[k] == ms[k])
            && after[i] == Machine(m.id, m.enabled, m.total, ms[i].reserved, m.minCores, m.minRam, m.minDisk,
                                   ms[i].probe, ms[i].lastProbe, ms[i].failCount, m.cloud))
  {
    hide Find;
  }

  /** Which machines are accepted at all. */
  lemma AcceptableMeans(m: Machine)
    ensures AcceptableMachine(m) <==>
      && |m.id| > 0
      && (forall k :: 0 <= k < |m.id| ==>
            var c := m.id[k]; 'a' <= c <= 'z' || 'A' <= c <= 'Z' || '0' <= c <= '9' || c in {'.', '_', '-', ':'})
      && 1 <= m.total.cores && 0 <= m.total.gpu && 0 <= m.total.ram && 0 <= m.total.disk
      && 0 <= m.minCores <= m.total.cores && 0 <= m.minRam <= m.total.ram && 0 <= m.minDisk <= m.total.disk
  {
    assert forall k :: 0 <= k < |m.id| ==> m.id[k] in m.id;
  }

  /** A removal on the fields: refused while anything is reserved; the last machine takes the place. */
  lemma RemovedMeans(ms: seq<Machine>, id: string)
    ensures var i := Find(ms, id); var (after, r) := Removed(ms, id);
      && (r == 0 <==>
            && i < |ms| && ms[i].reserved.cores <= 0 && ms[i].reserved.gpu <= 0
            && ms[i].reserved.ram <= 0 && ms[i].reserved.disk <= 0)
      && (r != 0 ==> after == ms)
      && (r == 0 ==>
            && |after| == |ms| - 1
            && forall k :: 0 <= k < |after| ==> after[k] == ms[if k == i then |ms| - 1 else k])
  {
    hide Find;
  }

  /** The registry operations other threads may slip in between two of the allocator's calls. */
  datatype RegOp =
    | Upsert(machine: Machine)
    | Remove(id: string)
    | Probe(id: string, status: MachineStatus, time: int, reachable: int)

  function Apply(ms: seq<Machine>, op: RegOp): seq<Machine> {
    match op
    case Upsert(m) => Upserted(ms, m).0
    case Remove(id) => Removed(ms, id).0
    case Probe(id, status, time, reachable) => Probed(ms, id, status, time, reachable).0
  }

  function ApplyAll(ms: seq<Machine>, ops: seq<RegOp>): seq<Machine> {
    if ops == [] then ms else Apply(ApplyAll(ms, ops[..|ops| - 1]), ops[|ops| - 1])
  }

  lemma ApplyNone(ms: seq<Machine>, ops: seq<RegOp>)
    requires |ops| == 0
    ensures ApplyAll(ms, ops) == ms
  {
  }

  lemma ApplyNext(ms: seq<Machine>, ops: seq<RegOp>, i: nat)
    requires i < |ops|
    ensures ApplyAll(ms, ops[..i + 1]) == Apply(ApplyAll(ms, ops[..i]), ops[i])
  {
    hide Apply;
    assert ops[..i + 1][..i] == ops[..i];
  }

  /** Every caller of upsert zeroes the machine before filling it in, so its counters are zero. */
  predicate Blank(op: RegOp) {
    op.Upsert? ==> Representable(op.machine) && op.machine.reserved == ZERO
  }

  ghost predicate Quiet(meddle: nat -> seq<RegOp>) { forall g :: meddle(g) == [] }
  ghost predicate AllBlank(meddle: nat -> seq<RegOp>) { forall g, op :: op in meddle(g) ==> Blank(op) }

  /** The differences the fit checks compute stay within 32 bits on a sound machine. */
  lemma FitChecksCannotOverflow(m: Machine, need: Res)
    requires m.Sound()
    ensures InIntRange(m.total.Minus(m.reserved)) && InIntRange(m.Headroom())
    ensures m.Headroom().NonNegative()
    ensures need.NonNegative() && need.AtMost(m.Headroom()) ==> InIntRange(m.reserved.Plus(need))
  {
  }

  // ---------------------------------------------------------------- the table as loaded

  /** One object of the machine list: what is read for the machine, and the texts that are only checked here. The
      machine's counters and probe state are not read. */
  datatype Entry = Entry(machine: Machine, hostname: string, ip: string, mac: string, provider: string, instance: string)

  const MOST := Res(10_000, 1_000, 10_000_000, 10_000_000)

  /** Every text fits its field, every number is in its range, and the checks of registry_load pass. */
  predicate Admissible(e: Entry) {
    && |e.machine.id| <= MAX_ID && |e.hostname| < 256 && |e.ip| < 46 && |e.mac| < 18
    && |e.provider| < 32 && |e.instance| < 128
    && e.machine.total.AtMost(MOST) && e.machine.Floor().AtMost(MOST)
    && AcceptableMachine(e.machine) && SafeText(e.hostname) && SafeText(e.ip)
    && (e.machine.cloud ==> e.provider in {"aws", "gcp", "azure"} && e.instance != "" && SafeText(e.instance))
  }

  /** What may be loaded, on the fields: texts that fit and hold safe characters only, numbers in range, and a cloud
      machine with one of the three providers and an instance. */
  lemma AdmissibleMeans(e: Entry)
    ensures var m := e.machine;
      Admissible(e) <==>
        && 1 <= |m.id| <= 63 && |e.hostname| <= 255 && |e.ip| <= 45 && |e.mac| <= 17 && |e.provider| <= 31 && |e.instance| <= 127
        && AllSafe(m.id) && AllSafe(e.hostname) && AllSafe(e.ip)
        && 1 <= m.total.cores <= 10000 && 0 <= m.total.gpu <= 1000
        && 0 <= m.total.ram <= 10000000 && 0 <= m.total.disk <= 10000000
        && 0 <= m.minCores <= m.total.cores && 0 <= m.minRam <= m.total.ram && 0 <= m.minDisk <= m.total.disk
        && (m.cloud ==>
              (e.provider == "aws" || e.provider == "gcp" || e.provider == "azure") && |e.instance| > 0 && AllSafe(e.instance))
  {
    AcceptableMeans(e.machine);
    SafeMeans(e.hostname);
    SafeMeans(e.ip);
    SafeMeans(e.instance);
    hide SafeText, AcceptableMachine;
  }

  predicate AllSafe(s: string) {
    forall k :: 0 <= k < |s| ==>
      var c := s[k]; 'a' <= c <= 'z' || 'A' <= c <= 'Z' || '0' <= c <= '9' || c in {'.', '_', '-', ':'}
  }

  lemma SafeMeans(s: string)
    ensures SafeText(s) <==> AllSafe(s)
  {
    assert forall k :: 0 <= k < |s| ==> s[k] in s;
  }

  /** The machine as it enters the table: nothing reserved, not probed yet. */
  function Fresh(m: Machine): (r: Machine)
    ensures r.id == m.id && r.reserved == ZERO && r.probe == Probing && r.lastProbe == 0 && r.failCount == 0
  {
    m.(reserved := ZERO, probe := Probing, lastProbe := 0, failCount := 0)
  }

  /** The table after one more entry of the list. */
  function WithEntry(ms: seq<Machine>, e: Entry): seq<Machine> {
    if Admissible(e) && !Has(ms, e.machine.id) && |ms| < MAX_MACHINES then ms + [Fresh(e.machine)] else ms
  }

  function Loaded(entries: seq<Entry>): seq<Machine> {
    if |entries| == 0 then [] else WithEntry(Loaded(entries[..|entries| - 1]), entries[|entries| - 1])
  }

  /** Entry `k` is the first admissible one of its id. */
  ghost predicate FirstOf(entries: seq<Entry>, k: int) {
    && 0 <= k < |entries| && Admissible(entries[k])
    && forall j :: 0 <= j < k && Admissible(entries[j]) ==> entries[j].machine.id != entries[k].machine.id
  }

  /** `from` tells which entry each machine comes from. */
  ghost predicate LoadedFrom(ms: seq<Machine>, entries: seq<Entry>, from: seq<nat>) {
    && |from| == |ms| <= MAX_MACHINES
    && (forall i :: 0 <= i < |from| ==> FirstOf(entries, from[i]) && ms[i] == Fresh(entries[from[i]].machine))
    && (forall i, j :: 0 <= i < j < |from| ==> from[i] < from[j])
    && (|ms| < MAX_MACHINES ==> forall k :: FirstOf(entries, k) ==> k in from)
  }

  /** The table holds the first admissible entry of every id, in the order of the list, up to its capacity. */
  lemma {:induction false} LoadedOrigin(entries: seq<Entry>) returns (from: seq<nat>)
    ensures LoadedFrom(Loaded(entries), entries, from)
  {
    hide Admissible;
    if |entries| == 0 {
      from := [];
    } else {
      var n := |entries| - 1;
      var before := LoadedOrigin(entries[..n]);
      from := OneMoreOrigin(entries, Loaded(entries[..n]), before);
    }
  }

  lemma FirstOfLonger(entries: seq<Entry>, n: nat)
    requires |entries| == n + 1
    ensures forall k :: FirstOf(entries[..n], k) ==> FirstOf(entries, k)
    ensures forall k :: FirstOf(entries, k) && k < n ==> FirstOf(entries[..n], k)
  {
    hide Admissible;
    assert forall k :: 0 <= k < n ==> entries[..n][k] == entries[k];
  }

  /** While there is room, an id is in the table exactly when an admissible entry of it has been seen. */
  lemma SeenBefore(entries: seq<Entry>, ms: seq<Machine>, from: seq<nat>, id: string)
    requires LoadedFrom(ms, entries, from) && |ms| < MAX_MACHINES
    ensures Has(ms, id) <==> exists k :: 0 <= k < |entries| && Admissible(entries[k]) && entries[k].machine.id == id
  {
    hide Admissible;
    var i := Find(ms, id);
    if i < |ms| {
      assert FirstOf(entries, from[i]);
    }
    if k :| 0 <= k < |entries| && Admissible(entries[k]) && entries[k].machine.id == id {
      var first := FirstWith(entries, k);
      var at :| 0 <= at < |from| && from[at] == first;
      assert ms[at].id == id;
    }
  }

  lemma {:induction false} FirstWith(entries: seq<Entry>, k: nat) returns (first: nat)
    requires k < |entries| && Admissible(entries[k])
    ensures FirstOf(entries, first) && entries[first].machine.id == entries[k].machine.id
  {
    hide Admissible;
    first := k;
    if j :| 0 <= j < k && Admissible(entries[j]) && entries[j].machine.id == entries[k].machine.id {
      first := FirstWith(entries, j);
    }
  }

  lemma OneMoreOrigin(entries: seq<Entry>, ms: seq<Machine>, before: seq<nat>) returns (from: seq<nat>)
    requires |entries| > 0 && LoadedFrom(ms, entries[..|entries| - 1], before)
    ensures LoadedFrom(WithEntry(ms, entries[|entries| - 1]), entries, from)
  {
    hide Admissible, Has;
    var n := |entries| - 1;
    var e := entries[n];
    FirstOfLonger(entries, n);
    assert forall i :: 0 <= i < |before| ==> FirstOf(entries[..n], before[i]);
    if |ms| < MAX_MACHINES { SeenBefore(entries[..n], ms, before, e.machine.id); }
    if Admissible(e) && !Has(ms, e.machine.id) && |ms| < MAX_MACHINES {
      from := before + [n];
      assert FirstOf(entries, n);
      forall k | FirstOf(entries, k) ensures k in from {
        if k < n { assert k in before; } else { assert from[|before|] == k; }
      }
    } else {
      from := before;
    }
  }

  lemma FreshIsSound(e: Entry)
    requires Admissible(e)
    ensures Fresh(e.machine).Sound()
  {
  }

  /** A loaded table is what the rest of the registry starts from. */
  lemma LoadedIsSound(entries: seq<Entry>)
    ensures var ms := Loaded(entries);
      && UniqueIds(ms) && |ms| <= MAX_MACHINES
      && (forall m :: m in ms ==> m.Sound() && m.reserved == ZERO && m.probe == Probing && m.lastProbe == m.failCount == 0)
      && (|ms| < MAX_MACHINES ==> forall e :: e in entries && Admissible(e) ==> Has(ms, e.machine.id))
  {
    hide Admissible, Loaded, Fresh;
    var ms := Loaded(entries);
    var from := LoadedOrigin(entries);
    forall i | 0 <= i < |ms| ensures ms[i].Sound() {
      FreshIsSound(entries[from[i]]);
    }
    forall i, j | 0 <= i < j < |ms| ensures ms[i].id != ms[j].id {
      assert FirstOf(entries, from[j]) && FirstOf(entries, from[i]);
    }
    if |ms| < MAX_MACHINES {
      forall e | e in entries && Admissible(e) ensures Has(ms, e.machine.id) {
        SeenBefore(entries, ms, from, e.machine.id);
      }
    }
  }

  lemma {:induction false} FullStays(entries: seq<Entry>, i: nat)
    requires i <= |entries| && |Loaded(entries[..i])| >= MAX_MACHINES
    ensures Loaded(entries) == Loaded(entries[..i])
  {
    hide Admissible;
    if i < |entries| {
      var n := |entries| - 1;
      assert entries[..n][..i] == entries[..i];
      FullStays(entries[..n], i);
    } else {
      assert entries[..i] == entries;
    }
  }

  lemma LoadedOfNone(entries: seq<Entry>)
    requires |entries| == 0
    ensures Loaded(entries) == []
  {
  }

  lemma LoadStep(entries: seq<Entry>, i: nat)
    requires i < |entries|
    ensures Loaded(entries[..i + 1]) == WithEntry(Loaded(entries[..i]), entries[i])
  {
    hide Admissible;
    assert entries[..i + 1][..i] == entries[..i];
  }

  // ---------------------------------------------------------------- the table in place

  class Registry {
    const data: array<Machine>
    var count: nat

    ghost predicate Valid()
      reads this
    {
      data.Length == MAX_MACHINES && count <= MAX_MACHINES
    }

    ghost function Machines(): (ms: seq<Machine>)
      reads this, data
      requires Valid()
      ensures |ms| == count <= MAX_MACHINES
    {
      data[..count]
    }

    constructor ()
      ensures Valid() && fresh(data) && Machines() == []
    {
      data := new Machine[MAX_MACHINES];
      count := 0;
    }

    method Locate(id: string) returns (i: nat)
      requires Valid()
      ensures i == Find(Machines(), id)
    {
      i := 0;
      while i < count && data[i].id != id
        invariant i <= count
        invariant forall k :: 0 <= k < i ==> data[k].id != id
      {
        i := i + 1;
      }
      FindIs(Machines(), id, i);
    }

    /** Replaces the whole table by those of `entries` that pass validation, first come first kept. */
    method Load(entries: seq<Entry>)
      requires Valid()
      modifies this, data
      ensures Valid() && Machines() == Loaded(entries) && UniqueIds(Machines())
      ensures forall m :: m in Machines() ==>
                m.Sound() && m.reserved == ZERO && m.probe == Probing && m.lastProbe == 0 && m.failCount == 0
      ensures forall e :: e in entries && Admissible(e) && count < MAX_MACHINES ==> Has(Machines(), e.machine.id)
    {
      hide Admissible, Loaded, Fresh;
      count := 0;
      var i := 0;
      LoadedOfNone(entries[..i]);
      while i < |entries| && count < MAX_MACHINES
        invariant Valid() && i <= |entries|
        invariant Machines() == Loaded(entries[..i])
      {
        Enter(entries[i]);
        LoadStep(entries, i);
        i := i + 1;
      }
      if i < |entries| { FullStays(entries, i); } else { assert entries[..i] == entries; }
      LoadedIsSound(entries);
    }

    method Enter(e: Entry)
      requires Valid() && count < MAX_MACHINES
      modifies this`count, data
      ensures Valid() && Machines() == WithEntry(old(Machines()), e)
    {
      hide Admissible;
      ghost var was := Machines();
      var seen := Locate(e.machine.id);
      if Admissible(e) && seen == count {
        data[count] := Fresh(e.machine);
        count := count + 1;
        assert Machines() == was + [Fresh(e.machine)];
      }
    }

    method Snapshot() returns (ms: seq<Machine>)
      requires Valid()
      ensures ms == Machines()
    {
      ms := data[..count];
    }

    method UpsertMachine(m: Machine) returns (r: int)
      requires Valid()
      modifies this, data
      ensures Valid() && (Machines(), r) == Upserted(old(Machines()), m)
    {
      if !AcceptableMachine(m) { return -1; }
      ghost var was := Machines();
      var i := Locate(m.id);
      if i < count {
        assert data[i] == was[i];
        if !data[i].reserved.Plus(m.Floor()).AtMost(m.total) { return -2; }
        data[i] := m.(reserved := data[i].reserved, probe := data[i].probe,
                      lastProbe := data[i].lastProbe, failCount := data[i].failCount);
        assert Machines() == Upserted(was, m).0;
        return 0;
      }
      if count >= MAX_MACHINES { return -1; }
      data[count] := m;
      count := count + 1;
      assert Machines() == was + [m];
      r := 0;
    }

    method RemoveMachine(id: string) returns (r: int)
      requires Valid()
      modifies this, data
      ensures Valid() && (Machines(), r) == Removed(old(Machines()), id)
    {
      ghost var was := Machines();
      var i := Locate(id);
      if i == count { return -1; }
      assert data[i] == was[i];
      if !data[i].reserved.AtMost(ZERO) { return -2; }
      data[i] := data[count - 1];
      assert Machines() == was[i := was[|was| - 1]];
      count := count - 1;
      assert Machines() == was[i := was[|was| - 1]][..|was| - 1];
      r := 0;
    }

    method Reserve(id: string, need: Res) returns (r: int)
      requires Valid()
      modifies data
      ensures Valid() && (Machines(), r) == Reserved(old(Machines()), id, need)
      ensures var was := old(Machines()); var i := Find(was, id);
        r == 0 <==>
          && need.cores >= 0 && need.gpu >= 0 && need.ram >= 0 && need.disk >= 0
          && i < |was| && was[i].enabled && was[i].probe == Online
          && need.cores <= was[i].total.cores - was[i].reserved.cores - was[i].minCores
          && need.gpu <= was[i].total.gpu - was[i].reserved.gpu
          && need.ram <= was[i].total.ram - was[i].reserved.ram - was[i].minRam
          && need.disk <= was[i].total.disk - was[i].reserved.disk - was[i].minDisk
      ensures r == 0 || (r == -1 && Machines() == old(Machines()))
      ensures r == 0 ==>
                var was := old(Machines()); var i := Find(was, id); var m := Machines()[i];
                && |Machines()| == |was| && (forall k :: 0 <= k < |was| && k != i ==> Machines()[k] == was[k])
                && m == was[i].(reserved := m.reserved)
                && m.reserved.cores == was[i].reserved.cores + need.cores && m.reserved.gpu == was[i].reserved.gpu + need.gpu
                && m.reserved.ram == was[i].reserved.ram + need.ram && m.reserved.disk == was[i].reserved.disk + need.disk
    {
      ReservedMeans(Machines(), id, need);
      if !need.NonNegative() { return -1; }
      var i := Locate(id);
      if i < count && data[i].Available() && need.AtMost(data[i].Headroom()) {
        data[i] := data[i].(reserved := data[i].reserved.Plus(need));
        return 0;
      }
      r := -1;
    }

    method Release(id: string, need: Res) returns (r: int)
      requires Valid()
      modifies data
      ensures Valid() && (Machines(), r) == Released(old(Machines()), id, need)
    {
      if !need.NonNegative() { return -1; }
      var i := Locate(id);
      if i < count {
        data[i] := data[i].(reserved := ClampUp(data[i].reserved.Minus(need)));
        return 0;
      }
      r := -1;
    }

    method UpdateProbe(id: string, status: MachineStatus, time: int, reachable: int) returns (r: int)
      requires Valid()
      modifies data
      ensures Valid() && (Machines(), r) == Probed(old(Machines()), id, status, time, reachable)
    {
      var i := Locate(id);
      if i == count { return -1; }
      var fails := if reachable > 0 then 0 else if reachable == 0 then data[i].failCount + 1 else data[i].failCount;
      data[i] := data[i].(probe := status, lastProbe := time, failCount := fails);
      r := 0;
    }

    /** One operation of another thread. */
    method InterfereOnce(op: RegOp)
      requires Valid()
      modifies this, data
      ensures Valid() && Machines() == Apply(old(Machines()), op)
    {
      hide Upserted, Removed, Probed;
      match op {
        case Upsert(m) => var r := UpsertMachine(m);
        case Remove(id) => var r := RemoveMachine(id);
        case Probe(id, status, time, reachable) => var r := UpdateProbe(id, status, time, reachable);
      }
    }

    /** Other threads' operations, in the order they happen to take the lock. */
    method Interfere(ops: seq<RegOp>)
      requires Valid()
      modifies this, data
      ensures Valid() && Machines() == ApplyAll(old(Machines()), ops)
    {
      hide Apply, ApplyAll;
      var i := 0;
      ApplyNone(Machines(), ops[..i]);
      while i < |ops|
        invariant i <= |ops| && Valid()
        invariant Machines() == ApplyAll(old(Machines()), ops[..i])
      {
        InterfereOnce(ops[i]);
        ApplyNext(old(Machines()), ops, i);
        i := i + 1;
      }
      assert ops[..i] == ops;
    }
  }
}
