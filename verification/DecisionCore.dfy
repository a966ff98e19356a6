// DecisionCore: how much detail each zone of a simulation gets within the cores that are available.

module DecisionCore {
  /** One zone as the pre-simulation describes it. */
  datatype Zone = Zone(error: real, size: real, uncertainty: real)

  /** Thresholds and the cores each fidelity takes. */
  datatype Config = Config(
    threshold: real,
    refineMultiplier: real,
    highMultiplier: real,
    uncertaintyWeight: real,
    cores: seq<int>)

  const MAX_ZONES := 64
  const MAX_CORES := 10000
  const UINT32 := 0x1_0000_0000

  /** What parse_fidelity_map accepts: two to eight entries, none but the first of them zero. */
  predicate ValidMap(cores: seq<int>) {
    && 2 <= |cores| <= 8 && 0 <= cores[0] <= MAX_CORES
    && forall f :: 1 <= f < |cores| ==> 1 <= cores[f] <= MAX_CORES
  }

  function MaxFidelity(c: Config): int { |c.cores| - 1 }

  function Priority(c: Config, z: Zone): real {
    var size := if z.size > 0.0 then z.size else 1.0;
    var uncertainty := if z.uncertainty >= 0.0 then z.uncertainty else 0.0;
    (z.error / size) * (1.0 + c.uncertaintyWeight * uncertainty)
  }

  /** The fidelity a zone is first given. */
  function Fidelity(c: Config, z: Zone): int {
    var p := Priority(c, z);
    var f := if p > c.threshold * c.highMultiplier then MaxFidelity(c)
             else if p > c.threshold * c.refineMultiplier then 2
             else 1;
    if f > MaxFidelity(c) then MaxFidelity(c) else f
  }

  /** The fidelity from which the budgeted selection starts. */
  function Desired(c: Config, z: Zone): int {
    var p := Priority(c, z);
    if p > c.threshold * c.highMultiplier then MaxFidelity(c)
    else if p > c.threshold * c.refineMultiplier then (if MaxFidelity(c) >= 2 then 2 else 1)
    else 1
  }

  lemma DesiredIsFidelity(c: Config, z: Zone)
    requires ValidMap(c.cores)
    ensures Desired(c, z) == Fidelity(c, z) && 1 <= Desired(c, z) <= MaxFidelity(c)
  {
  }

  lemma Scaled(p: real, q: real, t: real, s: real)
    requires s > 0.0 && p == q / s
    ensures p * s == q && (p > t <==> q > t * s)
  {
    assert p * s == q;
    if p > t { assert (p - t) * s > 0.0; } else { assert (t - p) * s >= 0.0; }
  }

  lemma Regrouped(e: real, s: real, u: real)
    requires s > 0.0
    ensures (e / s) * u == (e * u) / s
  {
    assert (e / s) * s == e;
    assert ((e / s) * u) * s == e * u;
  }

  /** The priority is the error per size, raised with the uncertainty; a missing size counts as one, a missing uncertainty
      as none. A zone gets the highest fidelity if it is above the upper threshold, the second (where there is one) above the
      lower threshold, the first otherwise. */
  lemma FidelityMeans(c: Config, z: Zone)
    requires ValidMap(c.cores)
    ensures var s := if z.size > 0.0 then z.size else 1.0;
      var raised := if z.uncertainty >= 0.0 then z.error * (1.0 + c.uncertaintyWeight * z.uncertainty) else z.error;
      && Priority(c, z) * s == raised
      && (raised > c.threshold * c.highMultiplier * s ==> Fidelity(c, z) == |c.cores| - 1)
      && (c.threshold * c.refineMultiplier * s < raised <= c.threshold * c.highMultiplier * s ==>
            Fidelity(c, z) == if |c.cores| > 2 then 2 else 1)
      && (raised <= c.threshold * c.refineMultiplier * s && raised <= c.threshold * c.highMultiplier * s ==> Fidelity(c, z) == 1)
  {
    var s := if z.size > 0.0 then z.size else 1.0;
    var u := 1.0 + c.uncertaintyWeight * (if z.uncertainty >= 0.0 then z.uncertainty else 0.0);
    var raised := z.error * u;
    assert z.uncertainty < 0.0 ==> u == 1.0;
    assert Priority(c, z) == (z.error / s) * u;
    Regrouped(z.error, s, u);
    assert Priority(c, z) == raised / s;
    Scaled(Priority(c, z), raised, c.threshold * c.highMultiplier, s);
    Scaled(Priority(c, z), raised, c.threshold * c.refineMultiplier, s);
    hide Priority;
  }

  /** A larger error, a larger uncertainty or a smaller size never lowers priority or fidelity. */
  lemma FidelityGrows(c: Config, z: Zone, z2: Zone)
    requires ValidMap(c.cores) && c.uncertaintyWeight >= 0.0
    requires 0.0 <= z.error <= z2.error && 0.0 <= z.uncertainty <= z2.uncertainty && 0.0 < z2.size <= z.size
    ensures Priority(c, z) <= Priority(c, z2) && Fidelity(c, z) <= Fidelity(c, z2)
  {
    var w := c.uncertaintyWeight;
    Products(w, w, z.uncertainty, z2.uncertainty);
    Quotients(z.error, z2.error, z.size, z2.size);
    Products(z.error / z.size, z2.error / z2.size, 1.0 + w * z.uncertainty, 1.0 + w * z2.uncertainty);
    assert Priority(c, z) <= Priority(c, z2);
    hide Priority;
  }

  lemma Products(a: real, b: real, x: real, y: real)
    requires 0.0 <= a <= b && 0.0 <= x <= y
    ensures 0.0 <= a * x <= b * y
  {
    assert (b - a) * x >= 0.0 && b * (y - x) >= 0.0;
  }

  lemma NegativeTimes(x: real, s: real)
    requires s > 0.0 && x < 0.0
    ensures x * s < 0.0
  {
  }

  lemma NotNegative(x: real, s: real, a: real)
    requires s > 0.0 && a >= 0.0 && x * s == a
    ensures x >= 0.0
  {
    if x < 0.0 { NegativeTimes(x, s); }
  }

  lemma Quotients(a: real, b: real, s: real, t: real)
    requires 0.0 <= a <= b && 0.0 < t <= s
    ensures 0.0 <= a / s <= b / t
  {
    var x, y := a / s, b / t;
    assert x * s == a && y * t == b;
    NotNegative(x, s, a);
    if x > y {
      NotNegative(y, t, b);
      Products(t, s, y, y);
      assert (x - y) * s > 0.0;
    }
  }

  /** Cores of a zone at fidelity `f`; a zone that is not selected has fidelity 0 and takes none. */
  function Cores(c: Config, f: int): nat
    requires ValidMap(c.cores)
  {
    if 1 <= f < |c.cores| then c.cores[f] else 0
  }

  function Add32(a: nat, b: nat): nat { (a + b) % UINT32 }

  /** Cores of all zones together. */
  function SumCores(c: Config, fs: seq<int>): nat
    requires ValidMap(c.cores)
  {
    if |fs| == 0 then 0 else SumCores(c, fs[..|fs| - 1]) + Cores(c, fs[|fs| - 1])
  }

  lemma {:induction false} SumBound(c: Config, fs: seq<int>)
    requires ValidMap(c.cores)
    ensures SumCores(c, fs) <= |fs| * MAX_CORES
  {
    if |fs| > 0 { SumBound(c, fs[..|fs| - 1]); }
  }

  lemma {:induction false} SumSet(c: Config, fs: seq<int>, i: nat, f: int)
    requires ValidMap(c.cores) && i < |fs|
    ensures SumCores(c, fs[i := f]) == SumCores(c, fs) - Cores(c, fs[i]) + Cores(c, f)
  {
    if i < |fs| - 1 {
      SumSet(c, fs[..|fs| - 1], i, f);
      assert fs[i := f][..|fs| - 1] == fs[..|fs| - 1][i := f];
    } else {
      assert fs[i := f][..|fs| - 1] == fs[..|fs| - 1];
    }
  }

  lemma {:induction false} SumOfNone(c: Config, fs: seq<int>)
    requires ValidMap(c.cores) && forall i :: 0 <= i < |fs| ==> fs[i] == 0
    ensures SumCores(c, fs) == 0
  {
    if |fs| > 0 { SumOfNone(c, fs[..|fs| - 1]); }
  }

  // ---------------------------------------------------------------- the selection

  /** A zone in the order it is served, with what it asks for per core. */
  datatype Pick = Pick(zone: nat, ratio: real, req: int)

  /** The ratio is taken over the fidelity before it is limited, with one core where the map has no such entry. */
  function PickOf(c: Config, zones: seq<Zone>, i: nat): Pick
    requires ValidMap(c.cores) && i < |zones|
  {
    var p := Priority(c, zones[i]);
    var f := if p > c.threshold * c.highMultiplier then MaxFidelity(c)
             else if p > c.threshold * c.refineMultiplier then 2
             else 1;
    var req := if 1 <= f <= MaxFidelity(c) then c.cores[f] else 1;
    Pick(i, p / (req as real), req)
  }

  /** What a zone asks for per core of the fidelity it is first given. */
  lemma PickMeans(c: Config, zones: seq<Zone>, i: nat)
    requires ValidMap(c.cores) && i < |zones|
    ensures var p := PickOf(c, zones, i);
      p.zone == i && p.req >= 1 && p.ratio * (p.req as real) == Priority(c, zones[i])
      && (|c.cores| > 2 ==> p.req == c.cores[Fidelity(c, zones[i])])
  {
    hide Priority;
  }

  predicate Descending(picks: seq<Pick>) { forall i, k :: 0 <= i < k < |picks| ==> picks[i].ratio >= picks[k].ratio }

  /** Every zone is picked once. */
  predicate Complete(picks: seq<Pick>, n: nat) {
    && |picks| == n
    && (forall i :: 0 <= i < n ==> picks[i].zone < n)
    && (forall i, k :: 0 <= i < k < n ==> picks[i].zone != picks[k].zone)
  }

  ghost predicate Served(picks: seq<Pick>, z: nat) { exists k :: 0 <= k < |picks| && picks[k].zone == z }

  /** Cores taken by the first `k` zones served. */
  function Spent(c: Config, picks: seq<Pick>, fs: seq<int>, k: nat): nat
    requires ValidMap(c.cores) && k <= |picks| && forall i :: 0 <= i < |picks| ==> picks[i].zone < |fs|
  {
    if k == 0 then 0 else Spent(c, picks, fs, k - 1) + Cores(c, fs[picks[k - 1].zone])
  }

  /** The zone served in turn `k` got the highest fidelity, up to the one desired, that what was spent on zones before
      it left room for; or none, if none fitted. */
  predicate ServedWell(c: Config, zones: seq<Zone>, cap: nat, picks: seq<Pick>, fs: seq<int>, k: nat)
    requires ValidMap(c.cores) && |fs| == |zones| && Complete(picks, |zones|) && k < |picks|
  {
    var z := picks[k].zone;
    && 0 <= fs[z] <= Desired(c, zones[z])
    && Spent(c, picks, fs, k) + Cores(c, fs[z]) <= cap
    && forall g :: fs[z] < g <= Desired(c, zones[z]) ==> Spent(c, picks, fs, k) + Cores(c, g) > cap
  }

  lemma {:induction false} SpentElsewhere(c: Config, picks: seq<Pick>, fs: seq<int>, z: nat, f: int, k: nat)
    requires ValidMap(c.cores) && k <= |picks| && z < |fs| && Complete(picks, |fs|)
    requires forall i :: 0 <= i < k ==> picks[i].zone != z
    ensures Spent(c, picks, fs[z := f], k) == Spent(c, picks, fs, k)
  {
    if k > 0 { SpentElsewhere(c, picks, fs, z, f, k - 1); }
  }

  lemma {:induction false} SpentGrows(c: Config, picks: seq<Pick>, fs: seq<int>, k: nat, m: nat)
    requires ValidMap(c.cores) && k <= m <= |picks| && forall i :: 0 <= i < |picks| ==> picks[i].zone < |fs|
    ensures Spent(c, picks, fs, k) <= Spent(c, picks, fs, m)
  {
    if k < m { SpentGrows(c, picks, fs, k, m - 1); }
  }

  lemma SpentOnNone(c: Config, picks: seq<Pick>, fs: seq<int>)
    requires ValidMap(c.cores) && forall i :: 0 <= i < |picks| ==> picks[i].zone < |fs|
    ensures Spent(c, picks, fs, 0) == 0
  {
  }

  lemma OthersUntouched(picks: seq<Pick>, fs: seq<int>, turn: nat, f: int)
    requires Complete(picks, |fs|) && turn < |picks| && forall k :: turn <= k < |picks| ==> fs[picks[k].zone] == 0
    ensures forall k :: turn < k < |picks| ==> fs[picks[turn].zone := f][picks[k].zone] == 0
    ensures fs[picks[turn].zone] == 0
  {
  }

  /** The best affordable fidelity of one zone, tried from the desired one down. */
  method BestFit(c: Config, desired: int, used: nat, cap: nat) returns (f: int)
    requires ValidMap(c.cores) && 1 <= desired <= MaxFidelity(c) && used <= cap < UINT32 - MAX_CORES
    ensures 0 <= f <= desired && used + Cores(c, f) <= cap
    ensures forall g :: f < g <= desired ==> used + Cores(c, g) > cap
  {
    f := desired;
    while f >= 1
      invariant 0 <= f <= desired
      invariant forall g :: f < g <= desired ==> used + Cores(c, g) > cap
    {
      var requirement := c.cores[f];
      if requirement > 0 && Add32(used, requirement) <= cap { return; }
      f := f - 1;
    }
  }

  /** The greedy selection over the zones in the given order. */
  method Select(c: Config, zones: seq<Zone>, cap: nat, picks: seq<Pick>) returns (fs: seq<int>, used: nat)
    requires ValidMap(c.cores) && Complete(picks, |zones|) && cap < UINT32 - MAX_CORES
    ensures |fs| == |zones| && used == SumCores(c, fs) == Spent(c, picks, fs, |picks|) <= cap
    ensures forall k :: 0 <= k < |picks| ==> ServedWell(c, zones, cap, picks, fs, k)
  {
    hide ServedWell, Desired, Fidelity, Spent, SumCores;
    fs := seq(|zones|, i => 0);
    used := 0;
    SumOfNone(c, fs);
    SpentOnNone(c, picks, fs);
    var turn := 0;
    while turn < |picks|
      invariant turn <= |picks| && |fs| == |zones| && used == SumCores(c, fs) == Spent(c, picks, fs, turn) <= cap
      invariant forall k :: turn <= k < |picks| ==> fs[picks[k].zone] == 0
      invariant forall k :: 0 <= k < turn ==> ServedWell(c, zones, cap, picks, fs, k)
    {
      var z := picks[turn].zone;
      DesiredIsFidelity(c, zones[z]);
      var f := BestFit(c, Desired(c, zones[z]), used, cap);
      ghost var before := fs;
      OthersUntouched(picks, fs, turn, f);
      SumSet(c, fs, z, f);
      fs := fs[z := f];
      used := Add32(used, Cores(c, f));
      ServeNext(c, zones, cap, picks, before, turn, f);
      turn := turn + 1;
    }
  }

  /** Serving one more zone leaves the ones before it as they were. */
  lemma {:induction false} ServeNext(c: Config, zones: seq<Zone>, cap: nat, picks: seq<Pick>, fs: seq<int>, turn: nat, f: int)
    requires ValidMap(c.cores) && |fs| == |zones| && Complete(picks, |zones|) && turn < |picks|
    requires forall k :: 0 <= k < turn ==> ServedWell(c, zones, cap, picks, fs, k)
    requires var used := Spent(c, picks, fs, turn); var desired := Desired(c, zones[picks[turn].zone]);
      0 <= f <= desired && used + Cores(c, f) <= cap && forall g :: f < g <= desired ==> used + Cores(c, g) > cap
    ensures var t := fs[picks[turn].zone := f];
      (forall k :: 0 <= k <= turn ==> ServedWell(c, zones, cap, picks, t, k))
      && Spent(c, picks, t, turn + 1) == Spent(c, picks, fs, turn) + Cores(c, f)
  {
    var z := picks[turn].zone;
    var t := fs[z := f];
    SpentElsewhere(c, picks, fs, z, f, turn);
    forall k | 0 <= k <= turn ensures ServedWell(c, zones, cap, picks, t, k) {
      SpentElsewhere(c, picks, fs, z, f, k);
      if k < turn { assert ServedWell(c, zones, cap, picks, fs, k); }
    }
  }

  // ---------------------------------------------------------------- what the selection achieves

  /** No zone could be raised to any higher fidelity up to the desired one, the others staying as they are. */
  lemma {:induction false} SelectionIsMaximal(c: Config, zones: seq<Zone>, cap: nat, picks: seq<Pick>, fs: seq<int>,
                                              k: nat, g: int)
    requires ValidMap(c.cores) && |fs| == |zones| && Complete(picks, |zones|) && k < |picks|
    requires forall m :: 0 <= m < |picks| ==> ServedWell(c, zones, cap, picks, fs, m)
    requires SumCores(c, fs) == Spent(c, picks, fs, |picks|) && fs[picks[k].zone] < g <= Desired(c, zones[picks[k].zone])
    ensures SumCores(c, fs[picks[k].zone := g]) > cap
  {
    assert ServedWell(c, zones, cap, picks, fs, k);
    SpentGrows(c, picks, fs, k + 1, |picks|);
    SumSet(c, fs, picks[k].zone, g);
  }

  /** Nothing is selected exactly when no zone fits alone, at any fidelity up to the desired one. */
  lemma {:induction false} NothingSelected(c: Config, zones: seq<Zone>, cap: nat, picks: seq<Pick>, fs: seq<int>)
    requires ValidMap(c.cores) && |fs| == |zones| && Complete(picks, |zones|)
    requires forall m :: 0 <= m < |picks| ==> ServedWell(c, zones, cap, picks, fs, m)
    ensures Spent(c, picks, fs, |picks|) == 0 <==>
              forall k, g :: 0 <= k < |picks| && 1 <= g <= Desired(c, zones[picks[k].zone]) ==> Cores(c, g) > cap
  {
    var none := forall k, g :: 0 <= k < |picks| && 1 <= g <= Desired(c, zones[picks[k].zone]) ==> Cores(c, g) > cap;
    if Spent(c, picks, fs, |picks|) == 0 {
      forall k, g | 0 <= k < |picks| && 1 <= g <= Desired(c, zones[picks[k].zone]) ensures Cores(c, g) > cap {
        assert ServedWell(c, zones, cap, picks, fs, k);
        SpentGrows(c, picks, fs, k + 1, |picks|);
        DesiredIsFidelity(c, zones[picks[k].zone]);
      }
    } else if none {
      SpentIsZero(c, zones, cap, picks, fs, |picks|);
    }
  }

  lemma {:induction false} SpentIsZero(c: Config, zones: seq<Zone>, cap: nat, picks: seq<Pick>, fs: seq<int>, n: nat)
    requires ValidMap(c.cores) && |fs| == |zones| && Complete(picks, |zones|) && n <= |picks|
    requires forall m :: 0 <= m < |picks| ==> ServedWell(c, zones, cap, picks, fs, m)
    requires forall k, g :: 0 <= k < |picks| && 1 <= g <= Desired(c, zones[picks[k].zone]) ==> Cores(c, g) > cap
    ensures Spent(c, picks, fs, n) == 0
  {
    if n > 0 {
      SpentIsZero(c, zones, cap, picks, fs, n - 1);
      assert ServedWell(c, zones, cap, picks, fs, n - 1);
      DesiredIsFidelity(c, zones[picks[n - 1].zone]);
    }
  }

  /** The zones come in order of what they ask for per core: whatever a zone was denied was denied because zones that
      ask for at least as much per core had already taken what it lacks. */
  lemma {:induction false} SelectionIsFair(c: Config, zones: seq<Zone>, cap: nat, picks: seq<Pick>, fs: seq<int>, k: nat, g: int)
    requires ValidMap(c.cores) && |fs| == |zones| && Complete(picks, |zones|) && Descending(picks) && k < |picks|
    requires ServedWell(c, zones, cap, picks, fs, k) && fs[picks[k].zone] < g <= Desired(c, zones[picks[k].zone])
    ensures SumAhead(c, picks, fs, picks[k].ratio, |picks|) + Cores(c, g) > cap + Cores(c, fs[picks[k].zone])
  {
    AheadCoversEarlier(c, picks, fs, k, |picks|);
  }

  /** Cores taken by the zones, among the first `n` served, whose ratio is at least `r`. */
  function SumAhead(c: Config, picks: seq<Pick>, fs: seq<int>, r: real, n: nat): nat
    requires ValidMap(c.cores) && n <= |picks| && forall i :: 0 <= i < |picks| ==> picks[i].zone < |fs|
  {
    if n == 0 then 0
    else SumAhead(c, picks, fs, r, n - 1) + if picks[n - 1].ratio >= r then Cores(c, fs[picks[n - 1].zone]) else 0
  }

  lemma {:induction false} AheadCoversEarlier(c: Config, picks: seq<Pick>, fs: seq<int>, k: nat, n: nat)
    requires ValidMap(c.cores) && Descending(picks) && k < n <= |picks| && Complete(picks, |fs|)
    ensures SumAhead(c, picks, fs, picks[k].ratio, n) >= Spent(c, picks, fs, k) + Cores(c, fs[picks[k].zone])
  {
    if n == k + 1 {
      AllAhead(c, picks, fs, k, k);
    } else {
      AheadCoversEarlier(c, picks, fs, k, n - 1);
    }
  }

  lemma {:induction false} AllAhead(c: Config, picks: seq<Pick>, fs: seq<int>, k: nat, n: nat)
    requires ValidMap(c.cores) && Descending(picks) && n <= k < |picks| && Complete(picks, |fs|)
    ensures SumAhead(c, picks, fs, picks[k].ratio, n) == Spent(c, picks, fs, n)
  {
    if n > 0 { AllAhead(c, picks, fs, k, n - 1); }
  }

  // ---------------------------------------------------------------- the decision

  datatype Verdict = Defer | RunCoarse | RunFine | Refine

  function CountRefined(fs: seq<int>): nat {
    if |fs| == 0 then 0 else CountRefined(fs[..|fs| - 1]) + if fs[|fs| - 1] > 1 then 1 else 0
  }

  predicate AllCoarse(fs: seq<int>) { forall i :: 0 <= i < |fs| ==> fs[i] <= 1 }

  predicate AllRefined(fs: seq<int>) { forall i :: 0 <= i < |fs| ==> fs[i] > 1 }

  lemma LastOne(fs: seq<int>, n: nat)
    requires |fs| == n + 1
    ensures AllCoarse(fs) <==> AllCoarse(fs[..n]) && fs[n] <= 1
    ensures AllRefined(fs) <==> AllRefined(fs[..n]) && fs[n] > 1
  {
    assert fs == fs[..n] + [fs[n]];
  }

  /** Nobody, everybody, or some are refined. */
  lemma {:induction false} CountRefinedMeans(fs: seq<int>)
    ensures CountRefined(fs) <= |fs|
    ensures CountRefined(fs) == 0 <==> AllCoarse(fs)
    ensures CountRefined(fs) == |fs| <==> AllRefined(fs)
  {
    if |fs| > 0 {
      hide AllCoarse, AllRefined;
      CountRefinedMeans(fs[..|fs| - 1]);
      LastOne(fs, |fs| - 1);
    }
  }

  /** The fidelity of every zone before any budget. */
  function Wanted(c: Config, zones: seq<Zone>): seq<int> { seq(|zones|, i requires 0 <= i < |zones| => Fidelity(c, zones[i])) }

  /** What qsort does with the picks: the same picks in descending order, equal ones in any order. */
  ghost predicate Sorts(sort: seq<Pick> -> seq<Pick>) {
    forall picks :: Descending(sort(picks)) && multiset(sort(picks)) == multiset(picks)
  }

  /** The first loop: fidelities, cores and the number of refined zones. */
  method Estimate(c: Config, zones: seq<Zone>) returns (fs: seq<int>, total: nat, refined: nat)
    requires ValidMap(c.cores) && |zones| <= MAX_ZONES
    ensures fs == Wanted(c, zones) && total == SumCores(c, fs) && refined == CountRefined(fs)
  {
    fs, total, refined := [], 0, 0;
    for i := 0 to |zones|
      invariant |fs| == i && (forall k :: 0 <= k < i ==> fs[k] == Fidelity(c, zones[k]))
      invariant total == SumCores(c, fs) && refined == CountRefined(fs)
    {
      var f := Fidelity(c, zones[i]);
      DesiredIsFidelity(c, zones[i]);
      ghost var next := fs + [f];
      assert next[..|next| - 1] == fs;
      SumBound(c, next);
      total := Add32(total, Cores(c, f));
      refined := if f > 1 then refined + 1 else refined;
      fs := fs + [f];
    }
  }

  method BuildPicks(c: Config, zones: seq<Zone>) returns (picks: seq<Pick>)
    requires ValidMap(c.cores)
    ensures |picks| == |zones| && forall i :: 0 <= i < |zones| ==> picks[i] == PickOf(c, zones, i)
  {
    picks := [];
    for i := 0 to |zones|
      invariant |picks| == i && forall k :: 0 <= k < i ==> picks[k] == PickOf(c, zones, k)
    {
      picks := picks + [PickOf(c, zones, i)];
    }
  }

  method CountLoop(fs: seq<int>) returns (refined: nat)
    ensures refined == CountRefined(fs)
  {
    refined := 0;
    for i := 0 to |fs|
      invariant refined == CountRefined(fs[..i])
    {
      assert fs[..i + 1][..i] == fs[..i];
      if fs[i] > 1 { refined := refined + 1; }
    }
    assert fs[..|fs|] == fs;
  }

  /** Sorting keeps the picks complete. */
  lemma {:induction false} SortedComplete(c: Config, zones: seq<Zone>, picks: seq<Pick>, sorted: seq<Pick>)
    requires ValidMap(c.cores) && |picks| == |zones| && forall i :: 0 <= i < |zones| ==> picks[i] == PickOf(c, zones, i)
    requires multiset(sorted) == multiset(picks)
    ensures Complete(sorted, |zones|) && forall z: nat :: z < |zones| ==> Served(sorted, z)
  {
    assert |sorted| == |multiset(sorted)| == |multiset(picks)| == |picks|;
    forall i | 0 <= i < |sorted| ensures sorted[i].zone < |zones| && sorted[i] == picks[sorted[i].zone] {
      assert sorted[i] in multiset(sorted);
      assert sorted[i] in picks;
    }
    forall i, k | 0 <= i < k < |sorted| ensures sorted[i].zone != sorted[k].zone {
      if sorted[i] == sorted[k] {
        assert sorted == sorted[..k] + [sorted[k]] + sorted[k + 1..];
        assert sorted[i] in sorted[..k];
        assert multiset(sorted)[sorted[i]] >= 2;
        assert picks[..|picks|] == picks;
        OnlyOnce(picks, sorted[i].zone, |picks|);
      }
    }
    forall z: nat | z < |zones| ensures Served(sorted, z) {
      assert picks[z] in multiset(sorted);
    }
  }

  lemma {:induction false} OnlyOnce(picks: seq<Pick>, z: nat, n: nat)
    requires z < |picks| && n <= |picks| && forall i :: 0 <= i < |picks| ==> picks[i].zone == i
    ensures multiset(picks[..n])[picks[z]] == if z < n then 1 else 0
  {
    if n > 0 {
      OnlyOnce(picks, z, n - 1);
      assert picks[..n] == picks[..n - 1] + [picks[n - 1]];
      assert picks[n - 1] == picks[z] <==> z == n - 1;
    }
  }

  /** The choice made over budget: the zones in descending order of ratio, each once, served well. */
  ghost predicate Chosen(c: Config, zones: seq<Zone>, cap: nat, picks: seq<Pick>, fs: seq<int>, target: nat)
    requires ValidMap(c.cores)
  {
    && |fs| == |zones| && Complete(picks, |zones|) && Descending(picks) && (forall z: nat :: z < |zones| ==> Served(picks, z))
    && (forall k :: 0 <= k < |zones| ==> picks[k] == PickOf(c, zones, picks[k].zone))
    && target == SumCores(c, fs) == Spent(c, picks, fs, |zones|)
    && (forall k :: 0 <= k < |zones| ==> ServedWell(c, zones, cap, picks, fs, k))
  }

  method ChooseWithin(c: Config, zones: seq<Zone>, cap: nat, sort: seq<Pick> -> seq<Pick>)
    returns (fs: seq<int>, used: nat, ghost picks: seq<Pick>)
    requires ValidMap(c.cores) && Sorts(sort) && cap < UINT32 - MAX_CORES
    ensures Chosen(c, zones, cap, picks, fs, used) && used <= cap
  {
    hide ServedWell, Spent, SumCores;
    var unsorted := BuildPicks(c, zones);
    var sorted := sort(unsorted);
    assert forall k :: 0 <= k < |sorted| ==> sorted[k] in multiset(sorted);
    SortedComplete(c, zones, unsorted, sorted);
    picks := sorted;
    assert forall k :: 0 <= k < |sorted| ==> sorted[k] in unsorted;
    hide PickOf;
    fs, used := Select(c, zones, cap, sorted);
  }

  /** The fidelity of each zone and the cores they take together; over budget, chosen in the order of `picks`. */
  ghost predicate Decided(c: Config, zones: seq<Zone>, cap: nat, picks: seq<Pick>, fs: seq<int>, target: nat)
    requires ValidMap(c.cores)
  {
    && target == SumCores(c, fs) <= cap
    && (if SumCores(c, Wanted(c, zones)) <= cap then fs == Wanted(c, zones) else Chosen(c, zones, cap, picks, fs, target))
  }

  function VerdictOf(fs: seq<int>, target: nat): Verdict {
    if target == 0 then Defer
    else if AllCoarse(fs) then RunCoarse
    else if AllRefined(fs) then RunFine
    else Refine
  }

  /** The action on the fidelities and their cores. */
  lemma VerdictMeans(fs: seq<int>, target: nat)
    requires |fs| > 0
    ensures var action := VerdictOf(fs, target);
      && (action == Defer <==> target == 0)
      && (action == RunCoarse <==> target > 0 && forall i :: 0 <= i < |fs| ==> fs[i] <= 1)
      && (action == RunFine <==> target > 0 && forall i :: 0 <= i < |fs| ==> fs[i] > 1)
      && (action == Refine <==>
            target > 0 && (exists i :: 0 <= i < |fs| && fs[i] <= 1) && (exists i :: 0 <= i < |fs| && fs[i] > 1))
  {
    assert fs[0] <= 1 || fs[0] > 1;
  }

  /** decision_core_decide, from the point where the zones are known. */
  method Decide(c: Config, zones: seq<Zone>, availableCpus: nat, sort: seq<Pick> -> seq<Pick>)
    returns (action: Verdict, target: nat, fs: seq<int>, ghost picks: seq<Pick>)
    requires ValidMap(c.cores) && 0 < |zones| <= MAX_ZONES && availableCpus < UINT32 && Sorts(sort)
    ensures availableCpus > 0 ==> Decided(c, zones, availableCpus, picks, fs, target)
    ensures availableCpus == 0 ==> fs == Wanted(c, zones) && target == SumCores(c, fs)
    ensures target < UINT32 && |fs| == |zones| && action == VerdictOf(fs, target)
    ensures action == Defer <==> target == 0
    ensures action == RunCoarse <==> target > 0 && forall i :: 0 <= i < |fs| ==> fs[i] <= 1
    ensures action == RunFine <==> target > 0 && forall i :: 0 <= i < |fs| ==> fs[i] > 1
    ensures action == Refine <==>
              target > 0 && (exists i :: 0 <= i < |fs| && fs[i] <= 1) && (exists i :: 0 <= i < |fs| && fs[i] > 1)
    ensures availableCpus > 0 ==>
              (action == Defer <==>
                 forall z, g :: 0 <= z < |zones| && 1 <= g <= Desired(c, zones[z]) ==> Cores(c, g) > availableCpus)
    ensures availableCpus == 0 ==> action != Defer
  {
    hide Sorts, SumCores, Fidelity;
    var total, refined;
    picks := [];
    fs, total, refined := Estimate(c, zones);
    SumBound(c, fs);
    target := total;
    var cap := if availableCpus > 0 then availableCpus else target;
    if target > cap && cap > 0 {
      fs, target, picks := ChooseWithin(c, zones, cap, sort);
      assert |fs| == |zones| && target == SumCores(c, fs);
      hide Chosen;
      refined := CountLoop(fs);
    }
    hide Chosen, CountRefined, Wanted;
    CountRefinedMeans(fs);
    if target == 0 { action := Defer; }
    else if refined == 0 { action := RunCoarse; }
    else if refined >= |zones| { action := RunFine; }
    else { action := Refine; }
    VerdictMeans(fs, target);
    if availableCpus > 0 { DeferredMeans(c, zones, availableCpus, picks, fs, target); } else { SomethingWanted(c, zones); }
  }

  /** Without a budget every zone gets at least one core. */
  lemma SomethingWanted(c: Config, zones: seq<Zone>)
    requires ValidMap(c.cores) && |zones| > 0
    ensures SumCores(c, Wanted(c, zones)) > 0
  {
    FirstCounts(c, zones, |zones|);
    hide SumCores, Wanted;
  }

  /** A job is deferred exactly when it is over budget and no zone would fit alone. */
  lemma {:induction false} DeferredMeans(c: Config, zones: seq<Zone>, cap: nat, picks: seq<Pick>, fs: seq<int>, target: nat)
    requires ValidMap(c.cores) && 0 < |zones| <= MAX_ZONES && Decided(c, zones, cap, picks, fs, target)
    ensures target == 0 <==> forall z, g :: 0 <= z < |zones| && 1 <= g <= Desired(c, zones[z]) ==> Cores(c, g) > cap
  {
    DesiredIsFidelity(c, zones[0]);
    if SumCores(c, Wanted(c, zones)) <= cap {
      FirstCounts(c, zones, |zones|);
    } else {
      NothingSelected(c, zones, cap, picks, fs);
      if target == 0 {
        forall z: nat, g | z < |zones| && 1 <= g <= Desired(c, zones[z]) ensures Cores(c, g) > cap {
          assert Served(picks, z);
          var k :| 0 <= k < |picks| && picks[k].zone == z;
          assert 1 <= g <= Desired(c, zones[picks[k].zone]);
        }
      }
    }
  }

  lemma {:induction false} FirstCounts(c: Config, zones: seq<Zone>, n: nat)
    requires ValidMap(c.cores) && 0 < n <= |zones|
    ensures SumCores(c, Wanted(c, zones)[..n]) >= Cores(c, Fidelity(c, zones[0])) > 0
    ensures Wanted(c, zones)[..|zones|] == Wanted(c, zones)
  {
    DesiredIsFidelity(c, zones[0]);
    var w := Wanted(c, zones);
    assert w[..n][..n - 1] == w[..n - 1];
    if n > 1 { FirstCounts(c, zones, n - 1); }
  }
}
