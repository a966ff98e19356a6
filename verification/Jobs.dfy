// Jobs: the job record, its status machine and the order in which jobs are served.

module Wrappers {
  datatype Option<+T> = None | Some(value: T)
}

/** A vector of the four quantities every request, slot and machine counter is made of. */
module Resources {
  datatype Res = Res(cores: int, gpu: int, ram: int, disk: int) {
    function Plus(o: Res): Res { Res(cores + o.cores, gpu + o.gpu, ram + o.ram, disk + o.disk) }
    function Minus(o: Res): Res { Res(cores - o.cores, gpu - o.gpu, ram - o.ram, disk - o.disk) }
    predicate AtMost(o: Res) { cores <= o.cores && gpu <= o.gpu && ram <= o.ram && disk <= o.disk }
    predicate NonNegative() { ZERO.AtMost(this) }
  }

  const ZERO := Res(0, 0, 0, 0)
}

module Jobs {
  import opened Resources

  type Id = string

  /** STARTING is the legacy value 1, kept only because old database rows may hold it. */
  datatype Status = Queued | Starting | Running | Succeeded | Cancelled | Failed | Created

  predicate Terminal(s: Status) { s == Succeeded || s == Failed || s == Cancelled }

  predicate TransitionAllowed(from: Status, to: Status) {
    match from
    case Created => to == Queued || to == Cancelled
    case Queued => to == Running || to == Failed || to == Cancelled
    case Running => to == Succeeded || to == Failed || to == Cancelled
    case _ => false
  }

  /** The whole table; what has ended cannot go on. */
  lemma TransitionMeans(from: Status, to: Status)
    ensures TransitionAllowed(from, to) <==>
      (from, to) in {(Created, Queued), (Created, Cancelled), (Queued, Running), (Queued, Failed), (Queued, Cancelled),
                     (Running, Succeeded), (Running, Failed), (Running, Cancelled)}
    ensures from != Starting ==> (Terminal(from) <==> forall s :: !TransitionAllowed(from, s))
  {
    assert from == Created ==> TransitionAllowed(from, Queued);
    assert from == Queued || from == Running ==> TransitionAllowed(from, Failed);
  }

  datatype Job = Job(
    id: Id,
    status: Status,
    priority: int,
    submittedAt: int,
    user: string,
    app: string,
    need: Res,
    machine: string,
    startedAt: int,
    timeoutSeconds: int,
    dependsOn: seq<Id>,
    inputFiles: seq<string>,
    sameMachineAs: Id)

  // ---------------------------------------------------------------- service order

  /** strcmp(a, b) < 0 */
  predicate StrLess(a: string, b: string) {
    |b| > 0 && (|a| == 0 || a[0] < b[0] || (a[0] == b[0] && StrLess(a[1..], b[1..])))
  }

  lemma {:induction false} StrLessTransitive(a: string, b: string, c: string)
    requires StrLess(a, b) && StrLess(b, c)
    ensures StrLess(a, c)
  {
    if |a| > 0 && a[0] == b[0] && b[0] == c[0] {
      StrLessTransitive(a[1..], b[1..], c[1..]);
    }
  }

  lemma {:induction false} StrLessTotal(a: string, b: string)
    ensures !(StrLess(a, b) && StrLess(b, a))
    ensures StrLess(a, b) || StrLess(b, a) <==> a != b
  {
    if |a| > 0 && |b| > 0 && a[0] == b[0] {
      StrLessTotal(a[1..], b[1..]);
      assert a == [a[0]] + a[1..] && b == [b[0]] + b[1..];
    }
  }

  /** Lower priority number first, then earlier submission, then smaller id. */
  predicate Before(a: Job, b: Job) {
    if a.priority != b.priority then a.priority < b.priority
    else if a.submittedAt != b.submittedAt then a.submittedAt < b.submittedAt
    else StrLess(a.id, b.id)
  }

  /** `a` may be served no later than `b`. */
  predicate Leq(a: Job, b: Job) { !Before(b, a) }

  lemma LeqTransitive(a: Job, b: Job, c: Job)
    requires Leq(a, b) && Leq(b, c)
    ensures Leq(a, c)
  {
    StrLessTotal(a.id, b.id);
    StrLessTotal(b.id, c.id);
    StrLessTotal(a.id, c.id);
    if StrLess(a.id, b.id) && StrLess(b.id, c.id) { StrLessTransitive(a.id, b.id, c.id); }
  }

  /** Where `a` is smaller at the first difference. */
  ghost predicate SmallerAt(a: string, b: string, n: nat) { n < |a| && n < |b| && a[..n] == b[..n] && a[n] < b[n] }

  lemma SmallerLater(a: string, b: string, n: nat)
    requires |a| > 0 && |b| > 0 && a[0] == b[0]
    ensures SmallerAt(a, b, n + 1) <==> SmallerAt(a[1..], b[1..], n)
    ensures !SmallerAt(a, b, 0)
  {
    if n < |a| - 1 && n < |b| - 1 {
      assert a[..n + 1] == [a[0]] + a[1..][..n] && b[..n + 1] == [b[0]] + b[1..][..n];
    }
  }

  lemma SmallerAtOnce(a: string, b: string, n: nat)
    requires |a| > 0 && |b| > 0 && a[0] != b[0]
    ensures SmallerAt(a, b, n) ==> n == 0 && a[0] < b[0]
    ensures a[0] < b[0] ==> SmallerAt(a, b, 0)
  {
    if n > 0 && n <= |a| && n <= |b| { assert a[..n][0] != b[..n][0]; }
  }

  lemma {:induction false} NotGreater(a: string, b: string)
    ensures !StrLess(b, a) <==> a <= b || exists n: nat :: SmallerAt(a, b, n)
  {
    hide SmallerAt;
    if |a| > 0 && |b| > 0 && a[0] == b[0] {
      NotGreater(a[1..], b[1..]);
      assert a == [a[0]] + a[1..] && b == [b[0]] + b[1..];
      if n: nat :| SmallerAt(a[1..], b[1..], n) { SmallerLater(a, b, n); }
      if n: nat :| SmallerAt(a, b, n) {
        SmallerLater(a, b, if n > 0 then n - 1 else 0);
      }
    } else if |a| > 0 && |b| > 0 {
      SmallerAtOnce(a, b, 0);
      if n: nat :| SmallerAt(a, b, n) { SmallerAtOnce(a, b, n); }
    } else if n: nat :| SmallerAt(a, b, n) {
      EmptyIsNotSmaller(a, b, n);
    }
  }

  lemma EmptyIsNotSmaller(a: string, b: string, n: nat)
    ensures |a| == 0 || |b| == 0 ==> !SmallerAt(a, b, n)
  {
  }

  /** The order of strcmp: `a` is not greater exactly when it is a beginning of `b` or smaller at the first difference. */
  lemma StrLessMeans(a: string, b: string)
    ensures !StrLess(b, a) <==>
      a <= b || exists n :: 0 <= n < |a| && n < |b| && a[..n] == b[..n] && a[n] < b[n]
  {
    hide StrLess;
    NotGreater(a, b);
    if n: nat :| n < |a| && n < |b| && a[..n] == b[..n] && a[n] < b[n] { assert SmallerAt(a, b, n); }
  }

  /** The order on the fields: the lower priority number first, then the earlier submission, then the id that is equal, a
      beginning of the other, or smaller where they first differ. */
  lemma LeqMeans(a: Job, b: Job)
    ensures Leq(a, b) <==>
      (a.priority < b.priority
        || (a.priority == b.priority && a.submittedAt < b.submittedAt)
        || (a.priority == b.priority && a.submittedAt == b.submittedAt &&
            (a.id <= b.id || exists n :: 0 <= n < |a.id| && n < |b.id| && a.id[..n] == b.id[..n] && a.id[n] < b.id[n])))
  {
    StrLessMeans(a.id, b.id);
    hide StrLess;
  }

  /** The order is total, and only jobs carrying the same id can tie. */
  lemma LeqTotal(a: Job, b: Job)
    ensures Leq(a, b) || Leq(b, a)
    ensures Leq(a, b) && Leq(b, a) <==> a.priority == b.priority && a.submittedAt == b.submittedAt && a.id == b.id
  {
    StrLessTotal(a.id, b.id);
  }
}
