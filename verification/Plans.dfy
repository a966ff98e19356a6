// Plans: how the allocator picks machines from a snapshot, for one machine or for several.

module Plans {
  import opened Resources
  import opened Registry
  import opened Ledger

  const MAX_MACHINES_PER_JOB := 16

  function Free(m: Machine): Res { ClampUp(m.Headroom()) }

  predicate CanFit(m: Machine, need: Res) { m.Available() && need.AtMost(Free(m)) }

  /** A fit on the fields of the machine: enabled, online, and with this much free; nothing asked for always fits. */
  lemma CanFitMeans(m: Machine, need: Res)
    ensures CanFit(m, need) <==>
      && m.enabled && m.probe == Online
      && (need.cores <= 0 || need.cores <= m.total.cores - m.reserved.cores - m.minCores)
      && (need.gpu <= 0 || need.gpu <= m.total.gpu - m.reserved.gpu)
      && (need.ram <= 0 || need.ram <= m.total.ram - m.reserved.ram - m.minRam)
      && (need.disk <= 0 || need.disk <= m.total.disk - m.reserved.disk - m.minDisk)
  {
  }

  /** Index of the first machine that fits, or the number of machines. */
  function FirstFit(ms: seq<Machine>, need: Res): (r: nat)
    ensures r <= |ms|
    ensures r < |ms| ==> CanFit(ms[r], need)
    ensures forall k :: 0 <= k < r ==> !CanFit(ms[k], need)
  {
    if ms == [] || CanFit(ms[0], need) then 0 else 1 + FirstFit(ms[1..], need)
  }

  /** A machine offered from a sound snapshot is one the registry will grant while nothing changes. */
  lemma FitIsGranted(ms: seq<Machine>, i: nat, need: Res)
    requires UniqueIds(ms) && i < |ms| && ms[i].Sound() && need.NonNegative()
    ensures CanFit(ms[i], need) <==> Reserved(ms, ms[i].id, need).1 == 0
  {
    FindAt(ms, i);
  }

  function Min(a: int, b: int): int { if a < b then a else b }

  /** Division as C does it, rounding towards zero. */
  function TruncDiv(a: int, n: int): int
    requires n > 0
  {
    if a >= 0 then a / n else -((-a) / n)
  }

  /** The share of `amount` each of `n` machines is asked for, rounded up. */
  function Share(amount: int, n: int): int
    requires n > 0
  {
    TruncDiv(amount + n - 1, n)
  }

  predicate Offers(m: Machine) { m.Available() && Free(m).cores > 0 }

  /** The slots picked from `ms[i..]` when `n` are already picked and `remaining` cores are missing. */
  function Take(ms: seq<Machine>, i: nat, remaining: int, n: nat): seq<Slot>
    requires i <= |ms|
    decreases |ms| - i
  {
    if i == |ms| || n >= MAX_MACHINES_PER_JOB || remaining <= 0 then []
    else if !Offers(ms[i]) then Take(ms, i + 1, remaining, n)
    else
      var c := Min(Free(ms[i]).cores, remaining);
      [Slot(ms[i].id, Res(c, 0, 0, 0))] + Take(ms, i + 1, remaining - c, n + 1)
  }

  /** The machines alloc_can_fit_multi counts, from `ms[i..]` on. */
  function Candidates(ms: seq<Machine>, i: nat, available: int, n: nat, cores: int): seq<nat>
    requires i <= |ms|
    decreases |ms| - i
  {
    if i == |ms| || n >= MAX_MACHINES_PER_JOB then []
    else if !Offers(ms[i]) then Candidates(ms, i + 1, available, n, cores)
    else
      var a := available + Free(ms[i]).cores;
      [i] + if a >= cores then [] else Candidates(ms, i + 1, a, n + 1, cores)
  }

  function CoresOf(slots: seq<Slot>): int { if slots == [] then 0 else slots[0].need.cores + CoresOf(slots[1..]) }
  function RamOf(slots: seq<Slot>): int { if slots == [] then 0 else slots[0].need.ram + RamOf(slots[1..]) }
  function DiskOf(slots: seq<Slot>): int { if slots == [] then 0 else slots[0].need.disk + DiskOf(slots[1..]) }

  predicate InRange(picks: seq<nat>, n: nat) { forall k :: 0 <= k < |picks| ==> picks[k] < n }

  function FreeCores(ms: seq<Machine>, picks: seq<nat>): int
    requires InRange(picks, |ms|)
  {
    if picks == [] then 0 else Free(ms[picks[0]]).cores + FreeCores(ms, picks[1..])
  }

  lemma OffersMeans(m: Machine)
    ensures Offers(m) <==> m.enabled && m.probe == Online && m.total.cores - m.reserved.cores - m.minCores > 0
    ensures Offers(m) ==> Free(m).cores == m.total.cores - m.reserved.cores - m.minCores
    ensures Free(m).ram == if m.total.ram - m.reserved.ram - m.minRam > 0 then m.total.ram - m.reserved.ram - m.minRam else 0
    ensures Free(m).disk ==
      if m.total.disk - m.reserved.disk - m.minDisk > 0 then m.total.disk - m.reserved.disk - m.minDisk else 0
  {
  }

  /** The counted machines on their fields, in the order of the table: every enabled machine that is online and has a free
      core, until their cores suffice or sixteen are found, and no other. */
  lemma CandidatesMean(ms: seq<Machine>, cores: int)
    ensures var c := Candidates(ms, 0, 0, 0, cores);
      && InRange(c, |ms|) && |c| <= 16
      && (forall k, l :: 0 <= k < l < |c| ==> c[k] < c[l])
      && (forall k :: 0 <= k < |c| ==> var m := ms[c[k]];
            m.enabled && m.probe == Online && m.total.cores - m.reserved.cores - m.minCores > 0)
      && (forall i :: 0 <= i < |ms| && i !in c && ms[i].enabled && ms[i].probe == Online
                      && ms[i].total.cores - ms[i].reserved.cores - ms[i].minCores > 0 ==>
            (|c| == 16 || FreeCores(ms, c) >= cores) && forall k :: 0 <= k < |c| ==> c[k] < i)
      && (|c| > 1 ==> FreeCores(ms, c[..|c| - 1]) < cores)
  {
    CandidatesInRange(ms, 0, 0, 0, cores);
    CandidatesStop(ms, 0, 0, 0, cores);
    CandidatesNeeded(ms, 0, 0, 0, cores);
    var c := Candidates(ms, 0, 0, 0, cores);
    hide Candidates, FreeCores, Offers, Free;
    forall i | 0 <= i < |ms| ensures Offers(ms[i]) <==>
        ms[i].enabled && ms[i].probe == Online && ms[i].total.cores - ms[i].reserved.cores - ms[i].minCores > 0
    {
      OffersMeans(ms[i]);
    }
  }

  /** Nothing that offers is passed over, and the search stops as soon as there is enough. */
  lemma {:induction false} CandidatesStop(ms: seq<Machine>, i: nat, available: int, n: nat, cores: int)
    requires i <= |ms| && n <= MAX_MACHINES_PER_JOB
    ensures var c := Candidates(ms, i, available, n, cores);
      && InRange(c, |ms|)
      && (forall j :: i <= j < |ms| && j !in c && Offers(ms[j]) ==>
            (n + |c| == MAX_MACHINES_PER_JOB || (|c| > 0 && available + FreeCores(ms, c) >= cores))
            && forall k :: 0 <= k < |c| ==> c[k] < j)
    decreases |ms| - i
  {
    hide Offers, Free, Candidates, FreeCores;
    CandidatesInRange(ms, i, available, n, cores);
    var c := Candidates(ms, i, available, n, cores);
    if i == |ms| || n >= MAX_MACHINES_PER_JOB {
      NoCandidates(ms, i, available, n, cores);
    } else {
      CandidatesStep(ms, i, available, n, cores);
      var a := available + Free(ms[i]).cores;
      if !Offers(ms[i]) {
        CandidatesStop(ms, i + 1, available, n, cores);
      } else if a >= cores {
        FreeCoresFirst(ms, c);
      } else {
        CandidatesInRange(ms, i + 1, a, n + 1, cores);
        CandidatesStop(ms, i + 1, a, n + 1, cores);
        assert c[1..] == Candidates(ms, i + 1, a, n + 1, cores);
        FreeCoresFirst(ms, c);
      }
    }
  }

  /** Every machine counted was needed: without the last one there are too few cores. */
  lemma {:induction false} CandidatesNeeded(ms: seq<Machine>, i: nat, available: int, n: nat, cores: int)
    requires i <= |ms| && n <= MAX_MACHINES_PER_JOB
    ensures var c := Candidates(ms, i, available, n, cores);
      InRange(c, |ms|) && (|c| > 1 ==> available + FreeCores(ms, c[..|c| - 1]) < cores)
    decreases |ms| - i
  {
    hide Offers, Free, Candidates, FreeCores;
    CandidatesInRange(ms, i, available, n, cores);
    var c := Candidates(ms, i, available, n, cores);
    if i == |ms| || n >= MAX_MACHINES_PER_JOB {
      NoCandidates(ms, i, available, n, cores);
    } else {
      CandidatesStep(ms, i, available, n, cores);
      var a := available + Free(ms[i]).cores;
      if !Offers(ms[i]) {
        CandidatesNeeded(ms, i + 1, available, n, cores);
      } else if a < cores {
        var rest := Candidates(ms, i + 1, a, n + 1, cores);
        CandidatesInRange(ms, i + 1, a, n + 1, cores);
        CandidatesNeeded(ms, i + 1, a, n + 1, cores);
        assert c[1..] == rest;
        if |rest| > 0 {
          assert c[..|c| - 1][1..] == rest[..|rest| - 1];
          FreeCoresFirst(ms, c[..|c| - 1]);
        }
        if |rest| == 1 { NoFreeCores(ms, rest[..0]); }
      }
    }
  }

  lemma NoCandidates(ms: seq<Machine>, i: nat, available: int, n: nat, cores: int)
    requires i <= |ms| && (i == |ms| || n >= MAX_MACHINES_PER_JOB)
    ensures |Candidates(ms, i, available, n, cores)| == 0
  {
  }

  lemma NoFreeCores(ms: seq<Machine>, picks: seq<nat>)
    requires |picks| == 0
    ensures FreeCores(ms, picks) == 0
  {
  }

  lemma FreeCoresFirst(ms: seq<Machine>, picks: seq<nat>)
    requires InRange(picks, |ms|) && |picks| > 0
    ensures InRange(picks[1..], |ms|) && FreeCores(ms, picks) == Free(ms[picks[0]]).cores + FreeCores(ms, picks[1..])
    ensures |picks| == 1 ==> FreeCores(ms, picks) == Free(ms[picks[0]]).cores
  {
    hide Free;
  }

  /** What alloc_can_fit_multi answers: the number of machines it would use, or 0. */
  function CanFitMulti(ms: seq<Machine>, need: Res): nat {
    var picks := Candidates(ms, 0, 0, 0, need.cores);
    CandidatesInRange(ms, 0, 0, 0, need.cores);
    if need.gpu > 0 || FreeCores(ms, picks) < need.cores || picks == [] then 0
    else
      var ramPer, diskPer := Share(need.ram, |picks|), Share(need.disk, |picks|);
      if exists k :: 0 <= k < |picks| && (Free(ms[picks[k]]).ram < ramPer || Free(ms[picks[k]]).disk < diskPer)
      then 0 else |picks|
  }

  lemma CandidatesStep(ms: seq<Machine>, i: nat, available: int, n: nat, cores: int)
    requires i < |ms| && n < MAX_MACHINES_PER_JOB
    ensures var a := available + Free(ms[i]).cores;
            Candidates(ms, i, available, n, cores) ==
              if !Offers(ms[i]) then Candidates(ms, i + 1, available, n, cores)
              else if a >= cores then [i] else [i] + Candidates(ms, i + 1, a, n + 1, cores)
  {
    hide Offers, Free;
  }

  lemma TakeStep(ms: seq<Machine>, i: nat, remaining: int, n: nat)
    requires i < |ms| && n < MAX_MACHINES_PER_JOB && remaining > 0
    ensures var f := Free(ms[i]).cores;
            Take(ms, i, remaining, n) ==
              if !Offers(ms[i]) then Take(ms, i + 1, remaining, n)
              else if f < remaining then [Slot(ms[i].id, Res(f, 0, 0, 0))] + Take(ms, i + 1, remaining - f, n + 1)
              else [Slot(ms[i].id, Res(remaining, 0, 0, 0))]
  {
    hide Offers, Free;
  }

  lemma {:induction false} CandidatesInRange(ms: seq<Machine>, i: nat, available: int, n: nat, cores: int)
    requires i <= |ms|
    ensures var c := Candidates(ms, i, available, n, cores);
            && (forall k :: 0 <= k < |c| ==> i <= c[k] < |ms| && Offers(ms[c[k]]))
            && (n <= MAX_MACHINES_PER_JOB ==> n + |c| <= MAX_MACHINES_PER_JOB)
            && (forall k, l :: 0 <= k < l < |c| ==> c[k] < c[l])
    decreases |ms| - i
  {
    if i < |ms| && n < MAX_MACHINES_PER_JOB {
      hide Offers, Free, Candidates;
      CandidatesStep(ms, i, available, n, cores);
      var a := available + Free(ms[i]).cores;
      if !Offers(ms[i]) {
        CandidatesInRange(ms, i + 1, available, n, cores);
      } else if a < cores {
        CandidatesInRange(ms, i + 1, a, n + 1, cores);
      }
    }
  }

  /** `t` takes cores, and only cores, from the machines `picks`, never more than they have. */
  ghost predicate TakesFrom(t: seq<Slot>, ms: seq<Machine>, picks: seq<nat>) {
    && |t| == |picks| && InRange(picks, |ms|)
    && (forall k :: 0 <= k < |t| ==>
          && t[k].machine == ms[picks[k]].id
          && 1 <= t[k].need.cores <= Free(ms[picks[k]]).cores
          && t[k].need == Res(t[k].need.cores, 0, 0, 0))
  }

  lemma TakesCons(t: seq<Slot>, ms: seq<Machine>, picks: seq<nat>, i: nat, c: int)
    requires i < |ms| && TakesFrom(t, ms, picks) && 1 <= c <= Free(ms[i]).cores
    ensures TakesFrom([Slot(ms[i].id, Res(c, 0, 0, 0))] + t, ms, [i] + picks)
    ensures CoresOf([Slot(ms[i].id, Res(c, 0, 0, 0))] + t) == c + CoresOf(t)
    ensures FreeCores(ms, [i] + picks) == Free(ms[i]).cores + FreeCores(ms, picks)
  {
    hide Free;
    var all := [Slot(ms[i].id, Res(c, 0, 0, 0))] + t;
    assert all[1..] == t && ([i] + picks)[1..] == picks;
  }

  /** `t` takes exactly what it may from `picks`: all their free cores, or as many as are missing. */
  ghost predicate Agree(t: seq<Slot>, ms: seq<Machine>, picks: seq<nat>, missing: int) {
    TakesFrom(t, ms, picks) && CoresOf(t) == Min(missing, FreeCores(ms, picks))
  }

  lemma AgreeMore(t: seq<Slot>, ms: seq<Machine>, picks: seq<nat>, missing: int, i: nat)
    requires i < |ms| && 1 <= Free(ms[i]).cores && Agree(t, ms, picks, missing - Free(ms[i]).cores)
    ensures Agree([Slot(ms[i].id, Res(Free(ms[i]).cores, 0, 0, 0))] + t, ms, [i] + picks, missing)
  {
    hide TakesFrom, CoresOf, FreeCores, Free;
    TakesCons(t, ms, picks, i, Free(ms[i]).cores);
  }

  lemma AgreeLast(ms: seq<Machine>, missing: int, i: nat)
    requires i < |ms| && 1 <= missing <= Free(ms[i]).cores
    ensures Agree([Slot(ms[i].id, Res(missing, 0, 0, 0))], ms, [i], missing)
  {
    hide TakesFrom, CoresOf, FreeCores, Free;
    NothingMore(ms);
    TakesCons([], ms, [], i, missing);
    assert [Slot(ms[i].id, Res(missing, 0, 0, 0))] + [] == [Slot(ms[i].id, Res(missing, 0, 0, 0))] && [i] + [] == [i];
  }

  /** The reserving loop picks exactly the machines the counting loop counts, and takes no core too many. */
  lemma {:induction false} TakeMatchesCandidates(ms: seq<Machine>, i: nat, available: int, n: nat, cores: int)
    requires i <= |ms| && available < cores
    ensures Agree(Take(ms, i, cores - available, n), ms, Candidates(ms, i, available, n, cores), cores - available)
    decreases |ms| - i
  {
    hide Agree, Free, Offers, Take, Candidates;
    if i < |ms| && n < MAX_MACHINES_PER_JOB {
      var f := Free(ms[i]).cores;
      OffersCores(ms[i]);
      CandidatesStep(ms, i, available, n, cores);
      TakeStep(ms, i, cores - available, n);
      if !Offers(ms[i]) {
        TakeMatchesCandidates(ms, i + 1, available, n, cores);
      } else if available + f < cores {
        TakeMatchesCandidates(ms, i + 1, available + f, n + 1, cores);
        AgreeMore(Take(ms, i + 1, cores - available - f, n + 1), ms,
                  Candidates(ms, i + 1, available + f, n + 1, cores), cores - available, i);
      } else {
        AgreeLast(ms, cores - available, i);
      }
    } else {
      NoneTaken(ms, i, available, n, cores);
    }
  }

  lemma OffersCores(m: Machine)
    ensures Offers(m) ==> Free(m).cores > 0
  {
  }

  lemma NoneTaken(ms: seq<Machine>, i: nat, available: int, n: nat, cores: int)
    requires i <= |ms| && available < cores && (i == |ms| || n >= MAX_MACHINES_PER_JOB)
    ensures Agree(Take(ms, i, cores - available, n), ms, Candidates(ms, i, available, n, cores), cores - available)
  {
    hide Free;
    NothingMore(ms);
  }

  lemma NothingMore(ms: seq<Machine>)
    ensures TakesFrom([], ms, []) && CoresOf([]) == 0 && FreeCores(ms, []) == 0
  {
  }

  /** The slots once RAM and disk have been shared out. */
  function Shared(slots: seq<Slot>, ramPer: int, diskPer: int): (r: seq<Slot>)
    ensures |r| == |slots|
    ensures forall k :: 0 <= k < |r| ==> r[k] == slots[k].(need := slots[k].need.(ram := ramPer, disk := diskPer))
  {
    if slots == [] then []
    else [slots[0].(need := slots[0].need.(ram := ramPer, disk := diskPer))] + Shared(slots[1..], ramPer, diskPer)
  }

  lemma {:induction false} SharedTotals(slots: seq<Slot>, ramPer: int, diskPer: int)
    ensures var r := Shared(slots, ramPer, diskPer);
            CoresOf(r) == CoresOf(slots) && RamOf(r) == |slots| * ramPer && DiskOf(r) == |slots| * diskPer
  {
    if slots != [] {
      SharedTotals(slots[1..], ramPer, diskPer);
      var r := Shared(slots, ramPer, diskPer);
      assert r[1..] == Shared(slots[1..], ramPer, diskPer);
      assert |slots| * ramPer == ramPer + |slots[1..]| * ramPer;
      assert |slots| * diskPer == diskPer + |slots[1..]| * diskPer;
    }
  }

  /** Rounding up wastes less than one unit per machine. */
  lemma ShareBounds(amount: int, n: int)
    requires n > 0 && amount >= 0
    ensures Share(amount, n) >= 0
    ensures amount <= n * Share(amount, n) < amount + n
  {
    var s := Share(amount, n);
    assert s == (amount + n - 1) / n;
    assert (amount + n - 1) == s * n + (amount + n - 1) % n;
  }

  /** The picked slots name different machines of the snapshot, each where the counting loop found it. */
  lemma TakenAreDistinct(ms: seq<Machine>, cores: int)
    requires UniqueIds(ms) && cores > 0
    ensures var t, c := Take(ms, 0, cores, 0), Candidates(ms, 0, 0, 0, cores);
            && |t| == |c| <= MAX_MACHINES_PER_JOB
            && InRange(c, |ms|) && TakesFrom(t, ms, c)
            && CoresOf(t) == Min(cores, FreeCores(ms, c))
            && (forall k :: 0 <= k < |t| ==> t[k].machine == ms[c[k]].id && Find(ms, t[k].machine) == c[k])
            && (forall k, l :: 0 <= k < l < |t| ==> t[k].machine != t[l].machine)
  {
    TakeMatchesCandidates(ms, 0, 0, 0, cores);
    CandidatesInRange(ms, 0, 0, 0, cores);
    var t, c := Take(ms, 0, cores, 0), Candidates(ms, 0, 0, 0, cores);
    assert Agree(t, ms, c, cores);
    hide Take, Candidates, CoresOf, FreeCores, Offers, Free;
    forall k | 0 <= k < |t| ensures Find(ms, t[k].machine) == c[k] { FindAt(ms, c[k]); }
  }

  /** What the machine picked for slot `k` of the plan is asked for is what it was seen to have. */
  lemma PlanIsGranted(ms: seq<Machine>, p: nat, s: Slot)
    requires UniqueIds(ms) && p < |ms| && ms[p].Sound() && Offers(ms[p]) && s.machine == ms[p].id
    requires 1 <= s.need.cores <= Free(ms[p]).cores && s.need.gpu == 0
    requires 0 <= s.need.ram <= Free(ms[p]).ram && 0 <= s.need.disk <= Free(ms[p]).disk
    ensures Reserved(ms, s.machine, s.need).1 == 0
  {
    FitIsGranted(ms, p, s.need);
  }

  lemma {:induction false} CoresSnoc(slots: seq<Slot>, s: Slot)
    ensures CoresOf(slots + [s]) == CoresOf(slots) + s.need.cores
  {
    if slots != [] {
      assert (slots + [s])[1..] == slots[1..] + [s];
      CoresSnoc(slots[1..], s);
    }
  }

  lemma {:induction false} FreeCoresSnoc(ms: seq<Machine>, picks: seq<nat>, p: nat)
    requires InRange(picks, |ms|) && p < |ms|
    ensures FreeCores(ms, picks + [p]) == FreeCores(ms, picks) + Free(ms[p]).cores
  {
    hide Free;
    if picks != [] {
      assert (picks + [p])[1..] == picks[1..] + [p];
      FreeCoresSnoc(ms, picks[1..], p);
    }
  }

  // ---------------------------------------------------------------- the printed list of machines

  function Join(ids: seq<string>): string {
    if ids == [] then "" else if |ids| == 1 then ids[0] else Join(ids[..|ids| - 1]) + "," + ids[|ids| - 1]
  }

  function MachinesOf(slots: seq<Slot>): seq<string> { seq(|slots|, i requires 0 <= i < |slots| => slots[i].machine) }

  /** Sixteen ids of at most 63 characters and their commas fit a buffer of 1024. */
  lemma {:induction false} JoinFits(ids: seq<string>)
    requires |ids| <= MAX_MACHINES_PER_JOB && forall id :: id in ids ==> |id| <= MAX_ID
    ensures |ids| > 0 ==> |Join(ids)| <= |ids| * (MAX_ID + 1) - 1
    ensures |Join(ids)| < 1024
  {
    if |ids| > 1 { JoinFits(ids[..|ids| - 1]); }
    if |ids| == 1 { assert ids[0] in ids; }
    if |ids| > 1 { assert ids[|ids| - 1] in ids; }
  }

  lemma NoIds(ids: seq<string>)
    ensures Join(ids[..0]) == ""
  {
  }

  lemma JoinSnoc(ids: seq<string>, i: nat)
    requires i < |ids|
    ensures Join(ids[..i + 1]) == Join(ids[..i]) + ((if i > 0 then "," else "") + ids[i])
  {
    assert ids[..i + 1][..i] == ids[..i];
  }

  /** A text cut at its commas. */
  function Cut(text: string): (parts: seq<string>)
    ensures |parts| > 0
  {
    if |text| == 0 then [""]
    else
      var front := Cut(text[..|text| - 1]);
      var c := text[|text| - 1];
      if c == ',' then front + [""] else front[|front| - 1 := front[|front| - 1] + [c]]
  }

  lemma CutMore(text: string, c: char)
    ensures var front := Cut(text);
      Cut(text + [c]) == if c == ',' then front + [""] else front[|front| - 1 := front[|front| - 1] + [c]]
  {
    assert (text + [c])[..|text|] == text;
  }

  lemma {:induction false} CutLast(text: string, id: string)
    requires ',' !in id
    ensures Cut(text + id) == Cut(text)[|Cut(text)| - 1 := Cut(text)[|Cut(text)| - 1] + id]
  {
    hide Cut;
    if |id| == 0 {
      assert text + id == text && Cut(text)[|Cut(text)| - 1] + id == Cut(text)[|Cut(text)| - 1];
    } else {
      var n := |id| - 1;
      var front := id[..n];
      CutLast(text, front);
      CutMore(text + front, id[n]);
      assert front + [id[n]] == id;
      assert (text + front) + [id[n]] == text + id;
      var last := Cut(text)[|Cut(text)| - 1];
      assert (last + front) + [id[n]] == last + id;
    }
  }

  /** The ids can be read back from their list, since no machine has a comma in its id. */
  lemma {:induction false} JoinReads(ids: seq<string>)
    requires |ids| > 0 && forall id <- ids :: ',' !in id
    ensures Cut(Join(ids)) == ids
  {
    hide Cut;
    var n := |ids| - 1;
    if n == 0 {
      OneId(ids[0]);
    } else {
      var front, id := Join(ids[..n]), ids[n];
      JoinReads(ids[..n]);
      CutMore(front, ',');
      CutLast(front + [','], id);
      assert "" + id == id;
      assert Join(ids) == front + [','] + id;
    }
  }

  lemma OneId(id: string)
    requires ',' !in id
    ensures Cut(id) == [id]
  {
    var none := id[..0];
    assert Cut(none) == [none];
    CutLast(none, id);
    assert none + id == id;
  }
}
