// Quotas: the most specific limit for a user and an application, and what running jobs use up of it.

module Quotas {
  import opened Wrappers
  import opened Resources
  import opened Jobs

  /** A limit of 0 or less is no limit. */
  datatype Quota = Quota(maxJobs: int, maxRam: int, maxCores: int, maxConcurrent: int)

  type QuotaTable = map<(string, string), Quota>

  function Lookup(qt: QuotaTable, user: string, app: string): Option<Quota> {
    if (user, app) in qt then Some(qt[(user, app)]) else None
  }

  /** resolve_quota: the exact pair, then the user's, then the application's, then the global default. */
  function Resolve(qt: QuotaTable, user: string, app: string): Option<Quota> {
    if user != "" && app != "" && Lookup(qt, user, app).Some? then Lookup(qt, user, app)
    else if user != "" && Lookup(qt, user, "").Some? then Lookup(qt, user, "")
    else if app != "" && Lookup(qt, "", app).Some? then Lookup(qt, "", app)
    else Lookup(qt, "", "")
  }

  datatype Load = Load(jobs: int, cores: int, ram: int) {
    function Plus(o: Load): Load { Load(jobs + o.jobs, cores + o.cores, ram + o.ram) }
    predicate AtMost(o: Load) { jobs <= o.jobs && cores <= o.cores && ram <= o.ram }
  }

  const NOTHING := Load(0, 0, 0)

  predicate Within(q: Quota, l: Load) {
    && (q.maxJobs > 0 ==> l.jobs <= q.maxJobs)
    && (q.maxConcurrent > 0 ==> l.jobs <= q.maxConcurrent)
    && (q.maxCores > 0 ==> l.cores <= q.maxCores)
    && (q.maxRam > 0 ==> l.ram <= q.maxRam)
  }

  /** Which running jobs are counted: the query's, where an empty name matches everything, or one exact pair's. */
  datatype Scope = Matching(user: string, app: string) | Exactly(user: string, app: string)

  predicate Counts(sc: Scope, j: Job) {
    && (j.status == Running || j.status == Starting)
    && match sc
       case Matching(user, app) => (user == "" || j.user == user) && (app == "" || j.app == app)
       case Exactly(user, app) => j.user == user && j.app == app
  }

  function LoadOf(j: Job): Load { Load(1, j.need.cores, j.need.ram) }

  function Term(sc: Scope, rows: map<Id, Job>, i: Id): Load {
    if i in rows && Counts(sc, rows[i]) then LoadOf(rows[i]) else NOTHING
  }

  ghost function Usage(sc: Scope, rows: map<Id, Job>, ids: set<Id>): Load {
    if ids == {} then NOTHING
    else
      var i :| i in ids;
      Term(sc, rows, i).Plus(Usage(sc, rows, ids - {i}))
  }

  /** What the running jobs in scope use. */
  ghost function Used(sc: Scope, rows: map<Id, Job>): Load { Usage(sc, rows, rows.Keys) }

  /** db_quota_check */
  ghost predicate Admits(qt: QuotaTable, rows: map<Id, Job>, j: Job) {
    var q := Resolve(qt, j.user, j.app);
    q.Some? ==> Within(q.value, Used(Matching(j.user, j.app), rows).Plus(LoadOf(j)))
  }

  /** Job requirements as job_create_ex leaves them: at least one core and nothing negative. */
  predicate Normal(rows: map<Id, Job>) {
    forall i :: i in rows ==> rows[i].need.NonNegative() && rows[i].need.cores >= 1
  }

  lemma PlusSwaps(a: Load, b: Load, c: Load)
    ensures a.Plus(b.Plus(c)) == b.Plus(a.Plus(c))
  {
  }

  lemma {:induction false} UsageTakes(sc: Scope, rows: map<Id, Job>, ids: set<Id>, i: Id)
    requires i in ids
    ensures Usage(sc, rows, ids) == Term(sc, rows, i).Plus(Usage(sc, rows, ids - {i}))
    decreases |ids|
  {
    hide Term;
    var x :| x in ids && Usage(sc, rows, ids) == Term(sc, rows, x).Plus(Usage(sc, rows, ids - {x}));
    if x != i {
      UsageTakes(sc, rows, ids - {x}, i);
      UsageTakes(sc, rows, ids - {i}, x);
      assert ids - {x} - {i} == ids - {i} - {x};
      PlusSwaps(Term(sc, rows, x), Term(sc, rows, i), Usage(sc, rows, ids - {x} - {i}));
    }
  }

  lemma UsageOfNone(sc: Scope, rows: map<Id, Job>)
    ensures Usage(sc, rows, {}) == NOTHING
  {
  }

  /** Counting no more rows, in a scope that may be narrower, finds no more load. */
  lemma {:induction false} UsageShrinks(sc: Scope, rows: map<Id, Job>, ids: set<Id>,
                                        sc2: Scope, rows2: map<Id, Job>, ids2: set<Id>)
    requires ids2 <= ids
    requires forall i :: i in ids2 ==> Term(sc2, rows2, i).AtMost(Term(sc, rows, i))
    requires forall i :: i in ids ==> NOTHING.AtMost(Term(sc, rows, i))
    ensures Usage(sc2, rows2, ids2).AtMost(Usage(sc, rows, ids))
    decreases |ids|
  {
    hide Term, Usage;
    if ids == {} {
      assert ids2 == {};
      UsageOfNone(sc, rows);
      UsageOfNone(sc2, rows2);
    } else {
      var i :| i in ids;
      UsageTakes(sc, rows, ids, i);
      UsageShrinks(sc, rows, ids - {i}, sc2, rows2, ids2 - {i});
      if i in ids2 { UsageTakes(sc2, rows2, ids2, i); } else { assert ids2 - {i} == ids2; }
    }
  }

  /** Rows outside the ones that count do not matter. */
  lemma UsedWithin(sc: Scope, rows: map<Id, Job>, sc2: Scope, rows2: map<Id, Job>)
    requires Normal(rows)
    requires forall i :: i in rows2 && Counts(sc2, rows2[i]) ==>
               i in rows && Counts(sc, rows[i]) && LoadOf(rows[i]) == LoadOf(rows2[i])
    ensures Used(sc2, rows2).AtMost(Used(sc, rows))
  {
    var ids := rows.Keys + rows2.Keys;
    assert forall i :: i in ids ==> Term(sc2, rows2, i).AtMost(Term(sc, rows, i)) && NOTHING.AtMost(Term(sc, rows, i));
    hide Usage, Term, Counts;
    UsageIgnores(sc2, rows2, ids);
    UsageIgnores(sc, rows, ids);
    UsageShrinks(sc, rows, ids, sc2, rows2, ids);
  }

  lemma {:induction false} UsageIgnores(sc: Scope, rows: map<Id, Job>, ids: set<Id>)
    requires rows.Keys <= ids
    ensures Usage(sc, rows, ids) == Used(sc, rows)
    decreases |ids|
  {
    if ids != rows.Keys {
      hide Usage;
      var i :| i in ids && i !in rows;
      UsageTakes(sc, rows, ids, i);
      UsageIgnores(sc, rows, ids - {i});
    }
  }

  /** What is summed up with one more row. */
  function Adding(sc: Scope, j: Job, sum: Load): Load {
    if Counts(sc, j) then Load(sum.jobs + 1, sum.cores + j.need.cores, sum.ram + j.need.ram) else sum
  }

  lemma PlusMoves(a: Load, b: Load, c: Load)
    ensures a.Plus(b.Plus(c)) == a.Plus(b).Plus(c)
    ensures NOTHING.Plus(a) == a == a.Plus(NOTHING)
  {
  }

  lemma AddingIsPlus(sc: Scope, rows: map<Id, Job>, i: Id, sum: Load)
    requires i in rows
    ensures Adding(sc, rows[i], sum) == sum.Plus(Term(sc, rows, i))
  {
    hide Counts;
  }

  lemma SumStep(sc: Scope, rows: map<Id, Job>, todo: set<Id>, i: Id, sum: Load)
    requires i in rows && i in todo
    ensures Adding(sc, rows[i], sum).Plus(Usage(sc, rows, todo - {i})) == sum.Plus(Usage(sc, rows, todo))
  {
    hide *;
    UsageTakes(sc, rows, todo, i);
    AddingIsPlus(sc, rows, i, sum);
    PlusMoves(sum, Term(sc, rows, i), Usage(sc, rows, todo - {i}));
  }

  lemma SumWhole(sc: Scope, rows: map<Id, Job>, todo: set<Id>)
    ensures NOTHING.Plus(Usage(sc, rows, rows.Keys)) == Used(sc, rows)
    ensures todo == {} ==> forall sum: Load :: sum.Plus(Usage(sc, rows, todo)) == sum
  {
    UsageOfNone(sc, rows);
    hide Usage;
  }

  /** The query's count and sums over the running rows. */
  method SumRunning(sc: Scope, rows: map<Id, Job>) returns (running: int, usedCores: int, usedRam: int)
    ensures Load(running, usedCores, usedRam) == Used(sc, rows)
  {
    hide Usage, Used, Counts, Term, Load.Plus;
    running, usedCores, usedRam := 0, 0, 0;
    var todo := rows.Keys;
    SumWhole(sc, rows, todo);
    while todo != {}
      invariant todo <= rows.Keys
      invariant Load(running, usedCores, usedRam).Plus(Usage(sc, rows, todo)) == Used(sc, rows)
      decreases |todo|
    {
      var i :| i in todo;
      SumStep(sc, rows, todo, i, Load(running, usedCores, usedRam));
      if Counts(sc, rows[i]) {
        running, usedCores, usedRam := running + 1, usedCores + rows[i].need.cores, usedRam + rows[i].need.ram;
      }
      todo := todo - {i};
    }
    SumWhole(sc, rows, todo);
  }

  /** db_quota_check */
  method QuotaCheck(qt: QuotaTable, rows: map<Id, Job>, j: Job) returns (ok: bool)
    ensures ok == Admits(qt, rows, j)
    ensures ok <==>
      var q := Resolve(qt, j.user, j.app); var used := Used(Matching(j.user, j.app), rows);
      || q.None?
      || (&& (q.value.maxJobs <= 0 || used.jobs + 1 <= q.value.maxJobs)
          && (q.value.maxConcurrent <= 0 || used.jobs + 1 <= q.value.maxConcurrent)
          && (q.value.maxCores <= 0 || used.cores + j.need.cores <= q.value.maxCores)
          && (q.value.maxRam <= 0 || used.ram + j.need.ram <= q.value.maxRam))
  {
    hide Used, Resolve;
    var q := Resolve(qt, j.user, j.app);
    if q.None? { return true; }
    var running, usedCores, usedRam := SumRunning(Matching(j.user, j.app), rows);
    if q.value.maxJobs > 0 && running + 1 > q.value.maxJobs { return false; }
    if q.value.maxConcurrent > 0 && running + 1 > q.value.maxConcurrent { return false; }
    if q.value.maxCores > 0 && usedCores + j.need.cores > q.value.maxCores { return false; }
    if q.value.maxRam > 0 && usedRam + j.need.ram > q.value.maxRam { return false; }
    ok := true;
  }

  // ---------------------------------------------------------------- what is looked up and counted

  /** An entry that applies to `user` and `app`: an empty name of the entry stands for everybody. */
  predicate Applies(key: (string, string), user: string, app: string) {
    (key.0 == "" || key.0 == user) && (key.1 == "" || key.1 == app)
  }

  /** The quota found is the most specific entry that applies: one for the user before one for the application before the
      default, and one for both before all of them; nothing is found only if no entry applies. */
  lemma MostSpecific(qt: QuotaTable, user: string, app: string)
    ensures Resolve(qt, user, app).None? <==> forall key :: key in qt ==> !Applies(key, user, app)
    ensures Resolve(qt, user, app).Some? ==>
      exists key :: && key in qt && Applies(key, user, app) && Resolve(qt, user, app).value == qt[key]
                    && forall other :: other in qt && Applies(other, user, app) ==>
                         (other.0 != "" ==> key.0 != "") && (other.0 == key.0 && other.1 != "" ==> key.1 != "")
  {
    var key := ResolvedKey(qt, user, app);
    if key.Some? {
      assert key.value in qt && Applies(key.value, user, app);
    } else {
      forall k | k in qt ensures !Applies(k, user, app) { }
    }
  }

  /** The jobs the query looks at. */
  ghost function Looked(rows: map<Id, Job>, user: string, app: string, ids: set<Id>): set<Id> {
    set i | i in ids && i in rows && (rows[i].status == Running || rows[i].status == Starting)
            && (user == "" || rows[i].user == user) && (app == "" || rows[i].app == app)
  }

  lemma LookedStep(rows: map<Id, Job>, user: string, app: string, ids: set<Id>, i: Id)
    requires i in ids
    ensures |Looked(rows, user, app, ids)| == |Looked(rows, user, app, ids - {i})| + Term(Matching(user, app), rows, i).jobs
  {
    var rest := Looked(rows, user, app, ids - {i});
    if i in Looked(rows, user, app, ids) {
      assert Looked(rows, user, app, ids) == rest + {i};
    } else {
      assert Looked(rows, user, app, ids) == rest;
    }
  }

  lemma LookedNone(rows: map<Id, Job>, user: string, app: string, ids: set<Id>)
    requires ids == {}
    ensures |Looked(rows, user, app, ids)| == 0
  {
    assert Looked(rows, user, app, ids) == {};
  }

  /** What is counted is how many running jobs there are of that user and application, an empty name matching everybody. */
  lemma {:induction false} UsedCounts(rows: map<Id, Job>, user: string, app: string, ids: set<Id>)
    ensures Usage(Matching(user, app), rows, ids).jobs == |Looked(rows, user, app, ids)|
    decreases |ids|
  {
    hide Usage, Looked, Term;
    var sc := Matching(user, app);
    if ids == {} {
      UsageOfNone(sc, rows);
      LookedNone(rows, user, app, ids);
    } else {
      var i :| i in ids;
      UsageTakes(sc, rows, ids, i);
      UsedCounts(rows, user, app, ids - {i});
      LookedStep(rows, user, app, ids, i);
    }
  }

  /** And the cores and the RAM are those of the same jobs: one more row adds what it asks for, if it is looked at. */
  lemma UsedAdds(rows: map<Id, Job>, i: Id, j: Job, user: string, app: string)
    requires i !in rows
    ensures var looked :=
        (j.status == Running || j.status == Starting) && (user == "" || j.user == user) && (app == "" || j.app == app);
      var was, now := Used(Matching(user, app), rows), Used(Matching(user, app), rows[i := j]);
      && now.jobs == was.jobs + (if looked then 1 else 0)
      && now.cores == was.cores + (if looked then j.need.cores else 0)
      && now.ram == was.ram + (if looked then j.need.ram else 0)
  {
    var sc := Matching(user, app);
    var added := if Counts(sc, j) then LoadOf(j) else NOTHING;
    AddedMeans(j, user, app, added);
    hide Used, Counts, LoadOf;
    WithOneMore(sc, rows, i, j);
    SumMeans(added, Used(sc, rows));
    hide Load.Plus;
  }

  lemma AddedMeans(j: Job, user: string, app: string, added: Load)
    requires added == if Counts(Matching(user, app), j) then LoadOf(j) else NOTHING
    ensures var looked :=
        (j.status == Running || j.status == Starting) && (user == "" || j.user == user) && (app == "" || j.app == app);
      && added.jobs == (if looked then 1 else 0) && added.cores == (if looked then j.need.cores else 0)
      && added.ram == (if looked then j.need.ram else 0)
  {
  }

  lemma SumMeans(a: Load, b: Load)
    ensures var c := a.Plus(b); c.jobs == a.jobs + b.jobs && c.cores == a.cores + b.cores && c.ram == a.ram + b.ram
  {
  }

  lemma UsedOfNone(sc: Scope, rows: map<Id, Job>)
    requires rows.Keys == {}
    ensures Used(sc, rows) == Load(0, 0, 0)
  {
    UsageOfNone(sc, rows);
  }

  /** The pair of names a limit was resolved for is never used beyond it. */
  ghost predicate Respected(qt: QuotaTable, rows: map<Id, Job>) {
    forall user, app :: PairRespected(qt, rows, user, app)
  }

  ghost predicate PairRespected(qt: QuotaTable, rows: map<Id, Job>, user: string, app: string) {
    var q := Resolve(qt, user, app);
    q.Some? ==> Within(q.value, Used(Exactly(user, app), rows))
  }

  /** Starting an admitted job, which changes its row to `started`, respects every limit. */
  lemma StartRespects(qt: QuotaTable, rows: map<Id, Job>, j: Job, started: Job)
    requires Normal(rows) && Respected(qt, rows) && Admits(qt, rows, j)
    requires j.id in rows && rows[j.id].need == j.need && !Counts(Exactly(j.user, j.app), rows[j.id])
    requires started.need == j.need && started.user == j.user && started.app == j.app
    ensures Respected(qt, rows[j.id := started])
  {
    var rows2 := rows[j.id := started];
    forall user, app ensures PairRespected(qt, rows2, user, app) {
      assert PairRespected(qt, rows, user, app);
      var sc := Exactly(user, app);
      if user == j.user && app == j.app {
        OneMore(sc, rows, j, started);
        UsedWithin(Matching(user, app), rows, sc, rows);
      } else {
        UsedWithin(sc, rows, sc, rows2);
      }
    }
  }

  lemma OneMore(sc: Scope, rows: map<Id, Job>, j: Job, started: Job)
    requires j.id in rows && !Counts(sc, rows[j.id]) && started.need == rows[j.id].need == j.need && Normal(rows)
    ensures Used(sc, rows[j.id := started]).AtMost(Used(sc, rows).Plus(LoadOf(j)))
  {
    hide Usage, Counts;
    var rows2 := rows[j.id := started];
    var ids := rows.Keys;
    assert rows2.Keys == ids;
    TermsKeep(sc, rows, j, started);
    UsageTakes(sc, rows, ids, j.id);
    UsageTakes(sc, rows2, ids, j.id);
    hide Term, LoadOf;
    UsageShrinks(sc, rows, ids - {j.id}, sc, rows2, ids - {j.id});
  }

  lemma TermsKeep(sc: Scope, rows: map<Id, Job>, j: Job, started: Job)
    requires j.id in rows && !Counts(sc, rows[j.id]) && started.need == rows[j.id].need == j.need && Normal(rows)
    ensures forall x :: x in rows.Keys - {j.id} ==>
              Term(sc, rows[j.id := started], x).AtMost(Term(sc, rows, x)) && NOTHING.AtMost(Term(sc, rows, x))
    ensures Term(sc, rows[j.id := started], j.id).AtMost(LoadOf(j)) && Term(sc, rows, j.id) == NOTHING
  {
    assert rows[j.id].need.NonNegative();
  }

  /** Nothing that only ends, removes or leaves alone running jobs breaks a limit. */
  lemma EndingRespects(qt: QuotaTable, rows: map<Id, Job>, rows2: map<Id, Job>)
    requires Normal(rows) && Respected(qt, rows)
    requires forall i :: i in rows2 && (rows2[i].status == Running || rows2[i].status == Starting) ==>
               i in rows && rows[i] == rows2[i]
    ensures Respected(qt, rows2)
  {
    forall user, app ensures PairRespected(qt, rows2, user, app) {
      assert PairRespected(qt, rows, user, app);
      UsedWithin(Exactly(user, app), rows, Exactly(user, app), rows2);
    }
  }

  /** When nothing runs, nothing is used. */
  lemma IdleRespects(qt: QuotaTable, rows: map<Id, Job>)
    requires forall i :: i in rows ==> rows[i].status != Running && rows[i].status != Starting
    ensures Respected(qt, rows)
  {
    forall user, app ensures PairRespected(qt, rows, user, app) {
      IdleUsesNothing(Exactly(user, app), rows, rows.Keys);
    }
  }

  lemma {:induction false} IdleUsesNothing(sc: Scope, rows: map<Id, Job>, ids: set<Id>)
    requires forall i :: Term(sc, rows, i) == NOTHING
    ensures Usage(sc, rows, ids) == NOTHING
    decreases |ids|
  {
    hide Usage, Term;
    if ids == {} {
      UsageOfNone(sc, rows);
    } else {
      var i :| i in ids;
      UsageTakes(sc, rows, ids, i);
      IdleUsesNothing(sc, rows, ids - {i});
      assert Term(sc, rows, i) == NOTHING;
    }
  }

  /** A limit set for a user alone still counts each of the user's applications apart: with a limit of one job
      for `user`, a second one is admitted as long as it names another application. */
  lemma UserLimitIsPerApplication(user: string, running: Job, next: Job)
    requires user != "" && running.user == next.user == user && running.status == Running && next.status == Queued
    requires running.app != next.app && next.app != "" && running.id != next.id
    ensures var qt := map[(user, "") := Quota(1, 0, 0, 0)];
      Resolve(qt, user, running.app) == Resolve(qt, user, next.app) == Some(Quota(1, 0, 0, 0))
      && Admits(qt, map[running.id := running, next.id := next], next)
  {
    var rows := map[running.id := running, next.id := next];
    assert forall i :: Term(Matching(user, next.app), rows, i) == NOTHING;
    IdleUsesNothing(Matching(user, next.app), rows, rows.Keys);
  }

  /** So does a limit set for an application alone, for each of its users ... */
  lemma ApplicationLimitIsPerUser(app: string, running: Job, next: Job)
    requires app != "" && running.app == next.app == app && running.status == Running && next.status == Queued
    requires running.user != next.user && next.user != "" && running.id != next.id
    ensures var qt := map[("", app) := Quota(1, 0, 0, 0)];
      Resolve(qt, running.user, app) == Resolve(qt, next.user, app) == Some(Quota(1, 0, 0, 0))
      && Admits(qt, map[running.id := running, next.id := next], next)
  {
    var rows := map[running.id := running, next.id := next];
    assert forall i :: Term(Matching(next.user, app), rows, i) == NOTHING;
    IdleUsesNothing(Matching(next.user, app), rows, rows.Keys);
  }

  /** ... and the global default, for each pair of names. */
  lemma DefaultLimitIsPerPair(running: Job, next: Job)
    requires running.status == Running && next.status == Queued && running.id != next.id
    requires (next.user != "" && running.user != next.user) || (next.app != "" && running.app != next.app)
    ensures var qt := map[("", "") := Quota(1, 0, 0, 0)];
      Resolve(qt, running.user, running.app) == Resolve(qt, next.user, next.app) == Some(Quota(1, 0, 0, 0))
      && Admits(qt, map[running.id := running, next.id := next], next)
  {
    var rows := map[running.id := running, next.id := next];
    assert forall i :: Term(Matching(next.user, next.app), rows, i) == NOTHING;
    IdleUsesNothing(Matching(next.user, next.app), rows, rows.Keys);
  }

  // ---------------------------------------------------------------- whom a limit bounds

  /** The level at which resolve_quota finds the quota. */
  function ResolvedKey(qt: QuotaTable, user: string, app: string): (key: Option<(string, string)>)
    ensures key.Some? ==> key.value in qt && Resolve(qt, user, app) == Some(qt[key.value])
    ensures key.None? ==> Resolve(qt, user, app) == None
  {
    if user != "" && app != "" && (user, app) in qt then Some((user, app))
    else if user != "" && (user, "") in qt then Some((user, ""))
    else if app != "" && ("", app) in qt then Some(("", app))
    else if ("", "") in qt then Some(("", ""))
    else None
  }

  predicate Limits(q: Quota) { q.maxJobs > 0 || q.maxRam > 0 || q.maxCores > 0 || q.maxConcurrent > 0 }

  /** The quota found for `user` and `app` bounds everybody it is set for: a job admitted under it leaves all running
      jobs that match the quota's own names, and the job, within it. */
  ghost predicate LimitIsShared(qt: QuotaTable, user: string, app: string)
    requires ResolvedKey(qt, user, app).Some?
  {
    var key := ResolvedKey(qt, user, app).value;
    forall rows: map<Id, Job>, j: Job :: j.user == user && j.app == app && Admits(qt, rows, j) ==>
      Within(qt[key], Used(Matching(key.0, key.1), rows).Plus(LoadOf(j)))
  }

  /** The same, of the rows that runs with these quotas come to: no pair of names is beyond its own limit. */
  ghost predicate LimitIsSharedInRuns(qt: QuotaTable, user: string, app: string)
    requires ResolvedKey(qt, user, app).Some?
  {
    var key := ResolvedKey(qt, user, app).value;
    forall rows: map<Id, Job>, j: Job ::
      Normal(rows) && Respected(qt, rows) && j.user == user && j.app == app && Admits(qt, rows, j) ==>
        Within(qt[key], Used(Matching(key.0, key.1), rows).Plus(LoadOf(j)))
  }

  function Cross(n: nat): (s: string)
    ensures |s| == n
  {
    seq(n, i => 'x')
  }

  /** Users and applications outside the pair, but among those the key is set for; `k` tells them apart. */
  function Outsider(user: string, app: string, key: (string, string), k: nat): (string, string) {
    if key.0 == user then (user, app + Cross(k)) else (user + Cross(k), app)
  }

  function Applicant(user: string, app: string): (j: Job) {
    Job("q", Queued, 0, 0, user, app, Res(1, 0, 0, 0), "", 0, 0, [], [], "")
  }

  function Name(n: nat): (name: Id)
    ensures |name| == n && forall c <- name :: c == 'r'
  {
    seq(n, i => 'r')
  }

  function Runner(k: nat, user: string, app: string, key: (string, string)): Job {
    var who := Outsider(user, app, key, k);
    Job(Name(k), Running, 0, 0, who.0, who.1, Res(1, 0, 1, 0), "", 0, 0, [], [], "")
  }

  /** `n` running jobs of as many users or applications, each with a core and a megabyte. */
  function Crowd(n: nat, user: string, app: string, key: (string, string)): (rows: map<Id, Job>)
    ensures forall i :: i in rows ==> 1 <= |i| <= n && rows[i] == Runner(|i|, user, app, key) && i == Name(|i|)
  {
    if n == 0 then map[] else Crowd(n - 1, user, app, key)[Name(n) := Runner(n, user, app, key)]
  }

  function Busy(n: nat, user: string, app: string, key: (string, string)): map<Id, Job> {
    Crowd(n, user, app, key)["q" := Applicant(user, app)]
  }

  predicate Wider(key: (string, string), user: string, app: string) {
    (key.0 == user || key.0 == "") && (key.1 == app || key.1 == "")
  }

  lemma KeyIsWider(qt: QuotaTable, user: string, app: string)
    requires ResolvedKey(qt, user, app).Some?
    ensures Wider(ResolvedKey(qt, user, app).value, user, app)
  {
  }

  lemma CrowdIsNormal(n: nat, user: string, app: string, key: (string, string))
    ensures var rows := Crowd(n, user, app, key); Normal(rows) && "q" !in rows && forall i :: i in rows ==> rows[i].id == i
  {
    hide Crowd, Outsider;
    var rows := Crowd(n, user, app, key);
    assert forall i :: i in rows ==> i[0] == 'r';
  }

  lemma BusyIsNormal(n: nat, user: string, app: string, key: (string, string))
    ensures var rows := Busy(n, user, app, key); var j := Applicant(user, app);
      Normal(rows) && (forall i :: i in rows ==> rows[i].id == i) && j.id in rows && rows[j.id] == j
    ensures var j := Applicant(user, app); j.status == Queued && j.user == user && j.app == app
  {
    hide Crowd, Outsider;
    CrowdIsNormal(n, user, app, key);
  }

  /** The quota's own names match every running job, the pair's names none, and any other pair's at most one. */
  lemma BusyUses(n: nat, user: string, app: string, key: (string, string), sc: Scope)
    requires Wider(key, user, app) && key != (user, app)
    ensures sc == Matching(key.0, key.1) ==> All(Used(sc, Busy(n, user, app, key)), n)
    ensures sc == Matching(user, app) ==> All(Used(sc, Busy(n, user, app, key)), 0)
    ensures sc.Exactly? ==> AtMostOne(Used(sc, Busy(n, user, app, key)))
  {
    hide Crowd, Used, Counts, Normal, Outsider, Runner, All, AtMostOne;
    CrowdIsNormal(n, user, app, key);
    OutsiderCounts(user, app, key);
    WithOneQueued(sc, Crowd(n, user, app, key), Applicant(user, app));
    match sc
    case Matching(u, a) =>
      if (u, a) == key { CrowdUses(sc, n, user, app, key, true); } else if (u, a) == (user, app) {
        CrowdUses(sc, n, user, app, key, false);
      }
    case Exactly(u, a) =>
      CrowdUsesOne(sc, n, user, app, key);
  }

  lemma OutsiderCounts(user: string, app: string, key: (string, string))
    requires Wider(key, user, app) && key != (user, app)
    ensures forall k: nat :: Counts(Matching(key.0, key.1), Runner(k, user, app, key))
    ensures forall k: nat :: k >= 1 ==> !Counts(Matching(user, app), Runner(k, user, app, key))
  {
    assert forall k: nat :: |user + Cross(k)| == |user| + k && |app + Cross(k)| == |app| + k;
  }

  predicate All(l: Load, n: int) { l.jobs == n && l.cores == n && l.ram == n }

  predicate AtMostOne(l: Load) { All(l, 0) || All(l, 1) }

  lemma {:induction false} CrowdUses(sc: Scope, n: nat, user: string, app: string, key: (string, string), counted: bool)
    requires forall k: nat :: k >= 1 ==> Counts(sc, Runner(k, user, app, key)) == counted
    ensures All(Used(sc, Crowd(n, user, app, key)), if counted then n else 0)
  {
    hide Usage, Used, Counts, Runner, LoadOf, Crowd, All, Load.Plus;
    if n == 0 {
      CrowdOfNone(sc, n, user, app, key);
    } else {
      CrowdUses(sc, n - 1, user, app, key, counted);
      CrowdGrows(sc, n, user, app, key);
      assert Counts(sc, Runner(n, user, app, key)) == counted;
      RunnerLoad(n, user, app, key);
      AllMore(Runner(n, user, app, key), Used(sc, Crowd(n - 1, user, app, key)), if counted then n - 1 else 0);
    }
  }

  /** The one of the crowd that may have the names of the scope. */
  function Which(sc: Scope, user: string, app: string): int { |sc.user| + |sc.app| - |user| - |app| }

  lemma OnlyThatOne(sc: Scope, k: nat, user: string, app: string, key: (string, string))
    requires sc.Exactly? && Counts(sc, Runner(k, user, app, key))
    ensures k == Which(sc, user, app)
  {
    assert |user + Cross(k)| == |user| + k && |app + Cross(k)| == |app| + k;
  }

  lemma {:induction false} CrowdUsesOne(sc: Scope, n: nat, user: string, app: string, key: (string, string))
    requires sc.Exactly?
    ensures AtMostOne(Used(sc, Crowd(n, user, app, key)))
    ensures n < Which(sc, user, app) ==> All(Used(sc, Crowd(n, user, app, key)), 0)
  {
    hide Usage, Used, Counts, Runner, LoadOf, Crowd, All, Load.Plus, Which;
    if n == 0 {
      CrowdOfNone(sc, n, user, app, key);
    } else {
      CrowdUsesOne(sc, n - 1, user, app, key);
      CrowdGrows(sc, n, user, app, key);
      RunnerLoad(n, user, app, key);
      AllMore(Runner(n, user, app, key), Used(sc, Crowd(n - 1, user, app, key)), 0);
      AllMore(Runner(n, user, app, key), Used(sc, Crowd(n - 1, user, app, key)), 1);
      if Counts(sc, Runner(n, user, app, key)) { OnlyThatOne(sc, n, user, app, key); }
    }
  }

  lemma AllMore(j: Job, l: Load, n: int)
    requires LoadOf(j) == Load(1, 1, 1)
    ensures All(l, n) ==> All(LoadOf(j).Plus(l), n + 1) && All(NOTHING.Plus(l), n)
  {
  }

  lemma CrowdOfNone(sc: Scope, n: nat, user: string, app: string, key: (string, string))
    requires n == 0
    ensures All(Used(sc, Crowd(n, user, app, key)), 0)
  {
    hide Usage;
    UsageOfNone(sc, Crowd(n, user, app, key));
    assert Crowd(n, user, app, key).Keys == {};
  }

  lemma RunnerLoad(k: nat, user: string, app: string, key: (string, string))
    ensures LoadOf(Runner(k, user, app, key)) == Load(1, 1, 1)
  {
    hide Outsider;
  }

  lemma CrowdGrows(sc: Scope, n: nat, user: string, app: string, key: (string, string))
    requires n > 0
    ensures var j := Runner(n, user, app, key); var t := if Counts(sc, j) then LoadOf(j) else NOTHING;
      Used(sc, Crowd(n, user, app, key)) == t.Plus(Used(sc, Crowd(n - 1, user, app, key)))
  {
    hide Usage, Counts, Runner, LoadOf;
    var rows, fewer := Crowd(n, user, app, key), Crowd(n - 1, user, app, key);
    assert rows == fewer[Name(n) := Runner(n, user, app, key)];
    assert Name(n) !in fewer;
    WithOneMore(sc, fewer, Name(n), Runner(n, user, app, key));
  }

  /** One job of one core and one megabyte is within any quota, so nobody in the crowd is beyond a limit of their own. */
  lemma BusyIsRespected(qt: QuotaTable, n: nat, user: string, app: string, key: (string, string))
    requires Wider(key, user, app) && key != (user, app)
    ensures Respected(qt, Busy(n, user, app, key))
  {
    hide Busy, Used, Resolve, Within;
    forall u, a ensures PairRespected(qt, Busy(n, user, app, key), u, a) {
      BusyUses(n, user, app, key, Exactly(u, a));
      var q := Resolve(qt, u, a);
      if q.Some? { OneIsWithin(q.value, Used(Exactly(u, a), Busy(n, user, app, key))); }
    }
  }

  lemma OneIsWithin(q: Quota, l: Load)
    requires AtMostOne(l)
    ensures Within(q, l)
  {
  }

  lemma WithOneMore(sc: Scope, rows: map<Id, Job>, i: Id, j: Job)
    requires i !in rows
    ensures var t := if Counts(sc, j) then LoadOf(j) else NOTHING;
      Used(sc, rows[i := j]) == t.Plus(Used(sc, rows))
  {
    hide Usage, Counts, LoadOf;
    var more := rows[i := j];
    assert more.Keys - {i} == rows.Keys;
    UsageTakes(sc, more, more.Keys, i);
    UsageSame(sc, more, rows, rows.Keys);
  }

  lemma WithOneQueued(sc: Scope, rows: map<Id, Job>, j: Job)
    requires j.status == Queued && j.id !in rows
    ensures Used(sc, rows[j.id := j]) == Used(sc, rows)
  {
    hide Used, LoadOf;
    WithOneMore(sc, rows, j.id, j);
  }

  lemma {:induction false} UsageSame(sc: Scope, rows: map<Id, Job>, rows2: map<Id, Job>, ids: set<Id>)
    requires forall i :: i in ids ==> Term(sc, rows, i) == Term(sc, rows2, i)
    ensures Usage(sc, rows, ids) == Usage(sc, rows2, ids)
    decreases |ids|
  {
    hide Term, Usage;
    if ids == {} {
      UsageOfNone(sc, rows);
      UsageOfNone(sc, rows2);
    } else {
      var i :| i in ids;
      UsageTakes(sc, rows, ids, i);
      UsageTakes(sc, rows2, ids, i);
      UsageSame(sc, rows, rows2, ids - {i});
    }
  }

  function Largest(q: Quota): (n: nat)
    ensures q.maxJobs <= n && q.maxRam <= n && q.maxCores <= n && q.maxConcurrent <= n
  {
    var a := if q.maxJobs > q.maxRam then q.maxJobs else q.maxRam;
    var b := if q.maxCores > q.maxConcurrent then q.maxCores else q.maxConcurrent;
    var c := if a > b then a else b;
    if c > 0 then c else 0
  }

  /** More than the largest limit is beyond any quota that limits anything; a job of one core alone is within all. */
  lemma LargestIsBeyond(q: Quota, l: Load)
    requires Limits(q) && l.jobs > Largest(q) && l.cores > Largest(q) && l.ram > Largest(q)
    ensures !Within(q, l)
  {
    hide Largest;
  }

  lemma OneCoreIsWithin(q: Quota, l: Load)
    requires l.jobs == 1 && l.cores == 1 && l.ram == 0
    ensures Within(q, l)
  {
  }

  lemma ApplicantAdds(user: string, app: string, l: Load)
    ensures var sum := l.Plus(LoadOf(Applicant(user, app)));
      sum.jobs == l.jobs + 1 && sum.cores == l.cores + 1 && sum.ram == l.ram
  {
  }

  /** The input: more jobs of others running than the limit allows, though each of them is within its own, and a queued
      job of the pair, which is admitted. */
  lemma LimitOverrun(qt: QuotaTable, user: string, app: string) returns (rows: map<Id, Job>, j: Job)
    requires ResolvedKey(qt, user, app).Some? && ResolvedKey(qt, user, app).value != (user, app)
    requires Limits(qt[ResolvedKey(qt, user, app).value])
    ensures Normal(rows) && Respected(qt, rows) && (forall i :: i in rows ==> rows[i].id == i)
    ensures j.id in rows && rows[j.id] == j && j.status == Queued && j.user == user && j.app == app
    ensures var key := ResolvedKey(qt, user, app).value;
      Admits(qt, rows, j) && !Within(qt[key], Used(Matching(key.0, key.1), rows).Plus(LoadOf(j)))
  {
    hide Used, Resolve, ResolvedKey, Busy, Normal, Limits, Largest, Within, LoadOf, Load.Plus, Applicant, Respected;
    var key := ResolvedKey(qt, user, app).value;
    KeyIsWider(qt, user, app);
    var n := Largest(qt[key]) + 1;
    j := Applicant(user, app);
    rows := Busy(n, user, app, key);
    BusyIsNormal(n, user, app, key);
    BusyIsRespected(qt, n, user, app, key);
    BusyUses(n, user, app, key, Matching(key.0, key.1));
    BusyUses(n, user, app, key, Matching(user, app));
    var crowd, nobody := Used(Matching(key.0, key.1), rows), Used(Matching(user, app), rows);
    ApplicantAdds(user, app, crowd);
    ApplicantAdds(user, app, nobody);
    LargestIsBeyond(qt[key], crowd.Plus(LoadOf(j)));
    OneCoreIsWithin(qt[key], nobody.Plus(LoadOf(j)));
  }

  /** In any table, the quota found bounds everybody it is set for exactly when it is set for that very pair of names,
      or sets no limit at all; it makes no difference whether only the rows of runs are looked at. */
  lemma LimitIsSharedExactly(qt: QuotaTable, user: string, app: string)
    requires ResolvedKey(qt, user, app).Some?
    ensures var key := ResolvedKey(qt, user, app).value;
      && (LimitIsShared(qt, user, app) <==> (user, app) == key || !Limits(qt[key]))
      && (LimitIsSharedInRuns(qt, user, app) <==> (user, app) == key || !Limits(qt[key]))
  {
    var key := ResolvedKey(qt, user, app).value;
    hide Used, Resolve, ResolvedKey, Respected, Normal;
    if (user, app) != key && Limits(qt[key]) {
      hide Within, LoadOf;
      var rows, j := LimitOverrun(qt, user, app);
    }
  }
}
