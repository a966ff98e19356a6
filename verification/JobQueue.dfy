// JobQueue: the scheduler's binary heap, kept in place in a growing array.

module JobQueue {
  import opened Wrappers
  import opened Jobs

  function Parent(i: nat): nat
    requires i > 0
  {
    (i - 1) / 2
  }

  ghost predicate HeapOrdered(s: seq<Job>) {
    forall k :: 0 < k < |s| ==> Leq(s[Parent(k)], s[k])
  }

  lemma {:induction false} RootIsLeast(s: seq<Job>, k: nat)
    requires HeapOrdered(s) && k < |s|
    ensures Leq(s[0], s[k])
    decreases k
  {
    if k == 0 {
      LeqTotal(s[0], s[0]);
    } else {
      RootIsLeast(s, Parent(k));
      LeqTransitive(s[0], s[Parent(k)], s[k]);
    }
  }

  /** `j` is a job of `m` that may be served no later than every job of `m` satisfying `p`. */
  ghost predicate LeastAmong(j: Job, m: multiset<Job>, p: Job -> bool) {
    j in m && p(j) && forall o :: o in m && p(o) ==> Leq(j, o)
  }

  lemma LeastMeans(j: Job, m: multiset<Job>, p: Job -> bool)
    requires LeastAmong(j, m, p)
    ensures forall k :: k in m && p(k) ==>
        (j.priority < k.priority
         || (j.priority == k.priority && j.submittedAt < k.submittedAt)
         || (j.priority == k.priority && j.submittedAt == k.submittedAt &&
             (j.id <= k.id || exists n :: 0 <= n < |j.id| && n < |k.id| && j.id[..n] == k.id[..n] && j.id[n] < k.id[n])))
  {
    hide Leq;
    forall k | k in m && p(k)
      ensures
          (j.priority < k.priority
           || (j.priority == k.priority && j.submittedAt < k.submittedAt)
           || (j.priority == k.priority && j.submittedAt == k.submittedAt &&
               (j.id <= k.id || exists n :: 0 <= n < |j.id| && n < |k.id| && j.id[..n] == k.id[..n] && j.id[n] < k.id[n])))
    {
      LeqMeans(j, k);
    }
  }

  function Swapped(s: seq<Job>, a: nat, b: nat): (r: seq<Job>)
    requires a < |s| && b < |s|
    ensures multiset(r) == multiset(s)
  {
    s[a := s[b]][b := s[a]]
  }

  /** A heap but for the job at `i`, which may have to rise. */
  ghost predicate HeapExceptAbove(s: seq<Job>, i: nat) {
    && i < |s|
    && (forall k :: 0 < k < |s| && k != i ==> Leq(s[Parent(k)], s[k]))
    && (i > 0 ==> forall k :: 0 < k < |s| && Parent(k) == i ==> Leq(s[Parent(i)], s[k]))
  }

  /** A heap but for the job at `i`, which may have to sink. */
  ghost predicate HeapExceptBelow(s: seq<Job>, i: nat) {
    && i < |s|
    && (forall k :: 0 < k < |s| && Parent(k) != i ==> Leq(s[Parent(k)], s[k]))
    && (i > 0 ==> forall k :: 0 < k < |s| && Parent(k) == i ==> Leq(s[Parent(i)], s[k]))
  }

  lemma RiseStep(s: seq<Job>, i: nat)
    requires 0 < i < |s| && HeapExceptAbove(s, i) && Before(s[i], s[Parent(i)])
    ensures HeapExceptAbove(Swapped(s, Parent(i), i), Parent(i))
  {
    var p := Parent(i);
    var t := Swapped(s, p, i);
    LeqTotal(s[i], s[p]);
    hide Leq, Before;
    forall k | 0 < k < |s| && k != p ensures Leq(t[Parent(k)], t[k]) {
      if Parent(k) == p && k != i { LeqTransitive(s[i], s[p], s[k]); }
    }
    if p > 0 {
      forall k | 0 < k < |s| && Parent(k) == p ensures Leq(t[Parent(p)], t[k]) {
        if k != i { LeqTransitive(s[Parent(p)], s[p], s[k]); }
      }
    }
  }

  /** The child that HeapDown picks: `i` itself if it is in order, else the least of its children. */
  ghost predicate IsSmallest(s: seq<Job>, i: nat, c: nat) {
    && i < |s| && c < |s| && (c == i || (c > 0 && Parent(c) == i))
    && Leq(s[c], s[i])
    && forall k :: 0 < k < |s| && Parent(k) == i ==> Leq(s[c], s[k])
  }

  lemma SinkStep(s: seq<Job>, i: nat, c: nat)
    requires HeapExceptBelow(s, i) && IsSmallest(s, i, c)
    ensures c == i ==> HeapOrdered(s)
    ensures c != i ==> HeapExceptBelow(Swapped(s, i, c), c)
  {
    hide Leq, Before;
    if c != i {
      var t := Swapped(s, i, c);
      forall k | 0 < k < |s| && Parent(k) != c ensures Leq(t[Parent(k)], t[k]) {
        if k != i && Parent(k) != i { assert t[k] == s[k] && t[Parent(k)] == s[Parent(k)]; }
      }
      forall k | 0 < k < |s| && Parent(k) == c ensures Leq(t[Parent(c)], t[k]) {
      }
    }
  }

  lemma PickSmallest(s: seq<Job>, i: nat) returns (c: nat)
    requires i < |s|
    ensures IsSmallest(s, i, c)
    ensures var l := 2 * i + 1; var r := 2 * i + 2;
            var m := if l < |s| && Before(s[l], s[i]) then l else i;
            c == if r < |s| && Before(s[r], s[m]) then r else m
  {
    var l, r := 2 * i + 1, 2 * i + 2;
    var m := if l < |s| && Before(s[l], s[i]) then l else i;
    c := if r < |s| && Before(s[r], s[m]) then r else m;
    LeqTotal(s[m], s[i]);
    LeqTotal(s[c], s[m]);
    if l < |s| { LeqTotal(s[m], s[l]); }
    if r < |s| { LeqTotal(s[c], s[r]); }
    assert Leq(s[c], s[m]) && Leq(s[m], s[i]);
    assert l < |s| ==> Leq(s[m], s[l]);
    assert r < |s| ==> Leq(s[c], s[r]);
    hide Leq, Before;
    LeqTransitive(s[c], s[m], s[i]);
    if l < |s| { LeqTransitive(s[c], s[m], s[l]); }
    forall k | 0 < k < |s| && Parent(k) == i ensures Leq(s[c], s[k]) {
      assert k == l || k == r;
    }
  }

  /** `s` with its last job moved into the place of the one at `index`. */
  function Without(s: seq<Job>, index: nat): (r: seq<Job>)
    requires index < |s|
    ensures |r| == |s| - 1
  {
    s[index := s[|s| - 1]][..|s| - 1]
  }

  lemma TakeOne(s: seq<Job>, index: nat)
    requires HeapOrdered(s) && index < |s|
    ensures multiset(Without(s, index)) == multiset(s) - multiset{s[index]}
    ensures index == |s| - 1 ==> HeapOrdered(Without(s, index))
  {
    WithoutHas(s, index);
    hide Leq;
  }

  lemma WithoutHas(s: seq<Job>, index: nat)
    requires index < |s|
    ensures multiset(Without(s, index)) == multiset(s) - multiset{s[index]}
  {
    var filled, last := s[index := s[|s| - 1]], multiset{s[|s| - 1]};
    assert filled == Without(s, index) + [filled[|s| - 1]];
    var kept, less := multiset(Without(s, index)), multiset(s) - multiset{s[index]};
    assert kept + last == multiset(filled) == less + last;
    SameRest(kept, less, last);
  }

  lemma SameRest(a: multiset<Job>, b: multiset<Job>, c: multiset<Job>)
    requires a + c == b + c
    ensures a == b
  {
    assert forall j :: a[j] == (a + c)[j] - c[j] == b[j];
  }

  /** Filling a heap's hole with its last job leaves order broken at the hole only, in one direction. */
  lemma FillHole(s: seq<Job>, index: nat)
    requires HeapOrdered(s) && index < |s| - 1
    ensures var t := Without(s, index);
            if index > 0 && Before(t[index], t[Parent(index)]) then HeapExceptAbove(t, index) else HeapExceptBelow(t, index)
  {
    var t := Without(s, index);
    var last := s[|s| - 1];
    if index > 0 { LeqTotal(last, s[Parent(index)]); }
    assert index > 0 ==> if Before(last, s[Parent(index)]) then Leq(last, s[Parent(index)]) else Leq(s[Parent(index)], last);
    hide Leq, Before;
    forall k | 0 < k < |t| && Parent(k) == index && index > 0
      ensures Leq(s[Parent(index)], s[k]) && (Before(last, s[Parent(index)]) ==> Leq(last, s[k]))
    {
      LeqTransitive(s[Parent(index)], s[index], s[k]);
      if Before(last, s[Parent(index)]) { LeqTransitive(last, s[Parent(index)], s[k]); }
    }
  }

  lemma Appended(s: seq<Job>, j: Job)
    requires HeapOrdered(s)
    ensures HeapExceptAbove(s + [j], |s|)
  {
  }

  class JobQueue {
    var heap: array<Job>
    var size: nat
    var closed: bool

    ghost predicate Valid()
      reads this, heap
    {
      0 < heap.Length && size <= heap.Length && HeapOrdered(heap[..size])
    }

    ghost function Contents(): multiset<Job>
      reads this, heap
      requires size <= heap.Length
    {
      multiset(heap[..size])
    }

    constructor (initialCapacity: int)
      ensures Valid() && fresh(heap) && Contents() == multiset{} && !closed
    {
      var n := if initialCapacity < 8 then 8 else initialCapacity;
      heap := new Job[n];
      size, closed := 0, false;
    }

    method Swap(a: nat, b: nat)
      requires a < size && b < size <= heap.Length
      modifies heap
      ensures heap[..size] == Swapped(old(heap[..size]), a, b)
    {
      heap[a], heap[b] := heap[b], heap[a];
    }

    method HeapUp(start: nat)
      requires start < size <= heap.Length && HeapExceptAbove(heap[..size], start)
      modifies heap
      ensures HeapOrdered(heap[..size])
      ensures multiset(heap[..size]) == old(multiset(heap[..size]))
    {
      hide Before;
      var i: nat := start;
      while i > 0
        invariant i < size && HeapExceptAbove(heap[..size], i)
        invariant multiset(heap[..size]) == old(multiset(heap[..size]))
      {
        var p := Parent(i);
        if !Before(heap[i], heap[p]) { break; }
        RiseStep(heap[..size], i);
        Swap(p, i);
        i := p;
      }
    }

    method HeapDown(start: nat)
      requires start < size <= heap.Length && HeapExceptBelow(heap[..size], start)
      modifies heap
      ensures HeapOrdered(heap[..size])
      ensures multiset(heap[..size]) == old(multiset(heap[..size]))
    {
      hide Before;
      var i: nat := start;
      while true
        invariant i < size && HeapExceptBelow(heap[..size], i)
        invariant multiset(heap[..size]) == old(multiset(heap[..size]))
        decreases size - i
      {
        var smallest, l, r := i, 2 * i + 1, 2 * i + 2;
        if l < size && Before(heap[l], heap[smallest]) { smallest := l; }
        if r < size && Before(heap[r], heap[smallest]) { smallest := r; }
        ghost var c := PickSmallest(heap[..size], i);
        SinkStep(heap[..size], i, smallest);
        if smallest == i { break; }
        Swap(i, smallest);
        i := smallest;
      }
    }

    /** heap[index] = heap[--size] */
    method DropAt(index: nat)
      requires index < size <= heap.Length
      modifies this`size, heap
      ensures size == old(size) - 1 && heap[..size] == Without(old(heap[..size]), index)
    {
      heap[index] := heap[size - 1];
      ghost var filled := heap[..size];
      assert filled == old(heap[..size][index := heap[size - 1]]);
      size := size - 1;
      assert heap[..size] == filled[..size];
    }

    /** heap[size++] = job, doubling the capacity when it is used up. */
    method Append(job: Job)
      requires 0 < heap.Length && size <= heap.Length
      modifies this`size, this`heap, heap
      ensures size == old(size) + 1 <= heap.Length && heap[..size] == old(heap[..size]) + [job]
      ensures heap == old(heap) || fresh(heap)
    {
      if size == heap.Length {
        var grown := new Job[2 * heap.Length];
        var i := 0;
        while i < size
          modifies grown
          invariant i <= size <= heap.Length < grown.Length
          invariant grown[..i] == heap[..i]
        {
          grown[i] := heap[i];
          i := i + 1;
        }
        heap := grown;
      }
      heap[size] := job;
      size := size + 1;
    }

    /** Takes out the job at `index`; the last job fills the hole and is sifted whichever way it must go. */
    method TakeAt(index: nat) returns (job: Job)
      requires Valid() && index < size
      modifies this`size, heap
      ensures Valid() && job == old(heap[index])
      ensures Contents() == old(Contents()) - multiset{job}
    {
      hide Before, Leq, HeapOrdered, HeapExceptAbove, HeapExceptBelow, Without;
      ghost var was := heap[..size];
      TakeOne(was, index);
      job := heap[index];
      DropAt(index);
      if index < size {
        FillHole(was, index);
        assert heap[index] == heap[..size][index];
        if index > 0 {
          assert heap[Parent(index)] == heap[..size][Parent(index)];
          if Before(heap[index], heap[Parent(index)]) { HeapUp(index); } else { HeapDown(index); }
        } else {
          HeapDown(index);
        }
      }
    }

    /** Push fails only after shutdown; otherwise it adds exactly the given job. */
    method Push(job: Job) returns (ok: bool)
      requires Valid()
      modifies this`size, this`heap, heap
      ensures Valid() && (heap == old(heap) || fresh(heap))
      ensures ok == !closed
      ensures Contents() == if ok then old(Contents()) + multiset{job} else old(Contents())
    {
      hide Before, Leq, HeapOrdered, HeapExceptAbove;
      if closed { return false; }
      Appended(heap[..size], job);
      Append(job);
      HeapUp(size - 1);
      ok := true;
    }

    /** Returns nothing exactly when empty, otherwise the least job, which it removes. */
    method TryPop() returns (r: Option<Job>)
      requires Valid()
      modifies this`size, heap
      ensures Valid()
      ensures r.None? <==> old(Contents()) == multiset{}
      ensures r.Some? ==> LeastAmong(r.value, old(Contents()), j => true) && Contents() == old(Contents()) - multiset{r.value}
      ensures r.Some? ==> var j := r.value; forall k :: k in old(Contents()) ==>
          (j.priority < k.priority
           || (j.priority == k.priority && j.submittedAt < k.submittedAt)
           || (j.priority == k.priority && j.submittedAt == k.submittedAt &&
               (j.id <= k.id || exists n :: 0 <= n < |j.id| && n < |k.id| && j.id[..n] == k.id[..n] && j.id[n] < k.id[n])))
      ensures r.None? ==> Contents() == old(Contents())
    {
      if size == 0 { return None; }
      ghost var was := heap[..size];
      forall o | o in was ensures Leq(was[0], o) {
        var k :| 0 <= k < |was| && was[k] == o;
        RootIsLeast(was, k);
      }
      assert was[0] in multiset(was);
      LeastMeans(was[0], multiset(was), j => true);
      var job := TakeAt(0);
      r := Some(job);
    }

    /** Returns the least job satisfying `p`, or nothing exactly when no job does. */
    method TryPopMatching(p: Job -> bool) returns (r: Option<Job>)
      requires Valid()
      modifies this`size, heap
      ensures Valid()
      ensures r.None? <==> forall o :: o in old(Contents()) ==> !p(o)
      ensures r.Some? ==> LeastAmong(r.value, old(Contents()), p) && Contents() == old(Contents()) - multiset{r.value}
      ensures r.Some? ==> var j := r.value; p(j) && forall k :: k in old(Contents()) && p(k) ==>
          (j.priority < k.priority
           || (j.priority == k.priority && j.submittedAt < k.submittedAt)
           || (j.priority == k.priority && j.submittedAt == k.submittedAt &&
               (j.id <= k.id || exists n :: 0 <= n < |j.id| && n < |k.id| && j.id[..n] == k.id[..n] && j.id[n] < k.id[n])))
      ensures r.None? ==> Contents() == old(Contents())
    {
      ghost var was := heap[..size];
      var best := -1;
      var i := 0;
      while i < size
        modifies {}
        invariant heap[..size] == was
        invariant i <= size <= heap.Length && -1 <= best < i
        invariant best < 0 ==> forall k :: 0 <= k < i ==> !p(was[k])
        invariant best >= 0 ==> p(was[best]) && forall k :: 0 <= k < i && p(was[k]) ==> Leq(was[best], was[k])
      {
        assert heap[i] == was[i];
        LeqTotal(was[i], was[i]);
        if p(heap[i]) {
          if best < 0 || Before(heap[i], heap[best]) {
            if best >= 0 {
              assert heap[best] == was[best];
              LeqTotal(was[i], was[best]);
              forall k | 0 <= k < i && p(was[k]) ensures Leq(was[i], was[k]) {
                LeqTransitive(was[i], was[best], was[k]);
              }
            }
            best := i;
          }
        }
        i := i + 1;
      }
      if best < 0 {
        assert forall o :: o in multiset(was) ==> o in was && !p(o);
        return None;
      }
      assert heap[best] == was[best] && was[best] in multiset(was);
      assert forall o :: o in was && p(o) ==> Leq(was[best], o);
      LeastMeans(was[best], multiset(was), p);
      var job := TakeAt(best);
      r := Some(job);
    }

    /** Removes one job carrying `id`, or nothing exactly when none does. */
    method Remove(id: Id) returns (r: Option<Job>)
      requires Valid()
      modifies this`size, heap
      ensures Valid()
      ensures r.None? <==> forall o :: o in old(Contents()) ==> o.id != id
      ensures r.Some? ==> r.value.id == id && r.value in old(Contents()) && Contents() == old(Contents()) - multiset{r.value}
      ensures r.None? ==> Contents() == old(Contents())
    {
      var index := 0;
      while index < size && heap[index].id != id
        invariant index <= size <= heap.Length
        invariant forall k :: 0 <= k < index ==> heap[k].id != id
      {
        index := index + 1;
      }
      ghost var was := heap[..size];
      if index == size {
        assert forall o :: o in was ==> o.id != id;
        return None;
      }
      assert heap[index] == was[index] && was[index] in multiset(was);
      var job := TakeAt(index);
      r := Some(job);
    }

    /** Popping until nothing is left serves exactly the jobs that were queued, in service order. */
    method Drain() returns (served: seq<Job>)
      requires Valid()
      modifies this`size, heap
      ensures Valid() && Contents() == multiset{}
      ensures IsListing(served, old(Contents()))
      ensures forall i, l :: 0 <= i < l < |served| ==> var j, k := served[i], served[l];
          (j.priority < k.priority
           || (j.priority == k.priority && j.submittedAt < k.submittedAt)
           || (j.priority == k.priority && j.submittedAt == k.submittedAt &&
               (j.id <= k.id || exists n :: 0 <= n < |j.id| && n < |k.id| && j.id[..n] == k.id[..n] && j.id[n] < k.id[n])))
    {
      hide Leq;
      served := [];
      while size > 0
        invariant Valid()
        invariant multiset(served) + Contents() == old(Contents())
        invariant Sorted(served) && NoneLate(served, Contents())
        decreases size
      {
        ghost var before, queued := size, Contents();
        var next := TryPop();
        assert |Contents()| == size && |queued| == before;
        ServeNext(served, next.value, queued);
        MovedOver(served, next.value, queued);
        served := served + [next.value];
      }
      assert Contents() == multiset{};
      SortedMeans(served);
    }
  }

  // ---------------------------------------------------------------- the order of service

  lemma MovedOver(served: seq<Job>, j: Job, queued: multiset<Job>)
    requires j in queued
    ensures multiset(served + [j]) + (queued - multiset{j}) == multiset(served) + queued
  {
  }

  ghost predicate Sorted(s: seq<Job>) {
    forall i, j :: 0 <= i < j < |s| ==> Leq(s[i], s[j])
  }

  lemma SortedMeans(s: seq<Job>)
    requires Sorted(s)
    ensures forall i, l :: 0 <= i < l < |s| ==> var j, k := s[i], s[l];
        (j.priority < k.priority
         || (j.priority == k.priority && j.submittedAt < k.submittedAt)
         || (j.priority == k.priority && j.submittedAt == k.submittedAt &&
             (j.id <= k.id || exists n :: 0 <= n < |j.id| && n < |k.id| && j.id[..n] == k.id[..n] && j.id[n] < k.id[n])))
  {
    hide Leq;
    forall i, l | 0 <= i < l < |s|
      ensures var j, k := s[i], s[l];
        (j.priority < k.priority
         || (j.priority == k.priority && j.submittedAt < k.submittedAt)
         || (j.priority == k.priority && j.submittedAt == k.submittedAt &&
             (j.id <= k.id || exists n :: 0 <= n < |j.id| && n < |k.id| && j.id[..n] == k.id[..n] && j.id[n] < k.id[n])))
    {
      LeqMeans(s[i], s[l]);
    }
  }

  /** `s` lists exactly the jobs of `m`, in service order. */
  ghost predicate IsListing(s: seq<Job>, m: multiset<Job>) {
    Sorted(s) && multiset(s) == m
  }

  ghost predicate DistinctIds(m: multiset<Job>) {
    forall a, b :: a in m && b in m && a.id == b.id ==> a == b
  }

  /** No job of `m` should have been served before one of `s`. */
  ghost predicate NoneLate(s: seq<Job>, m: multiset<Job>) {
    forall i, o :: 0 <= i < |s| && o in m ==> Leq(s[i], o)
  }

  lemma ServeNext(s: seq<Job>, j: Job, m: multiset<Job>)
    requires Sorted(s) && NoneLate(s, m) && LeastAmong(j, m, x => true)
    ensures Sorted(s + [j]) && NoneLate(s + [j], m - multiset{j})
  {
    hide Leq;
    forall i, o | 0 <= i < |s + [j]| && o in m - multiset{j} ensures Leq((s + [j])[i], o) {
      assert o in m;
    }
  }

  /** There is only one way to serve a set of jobs with distinct ids, whatever history brought them there. */
  lemma {:induction false} ListingUnique(a: seq<Job>, b: seq<Job>, m: multiset<Job>)
    requires DistinctIds(m) && IsListing(a, m) && IsListing(b, m)
    ensures a == b
    decreases |a|
  {
    SameSize(a, b);
    if |a| > 0 {
      FirstIsLeast(a, m);
      FirstIsLeast(b, m);
      LeqTotal(a[0], b[0]);
      hide Leq, Before, IsListing;
      ListingUnique(a[1..], b[1..], m - multiset{a[0]});
      SameHeadSameTail(a, b);
    }
  }

  lemma SameHeadSameTail(a: seq<Job>, b: seq<Job>)
    requires |a| > 0 && |b| > 0 && a[0] == b[0] && a[1..] == b[1..]
    ensures a == b
  {
    assert a == [a[0]] + a[1..] && b == [b[0]] + b[1..];
  }

  lemma SameSize(a: seq<Job>, b: seq<Job>)
    requires multiset(a) == multiset(b)
    ensures |a| == |b|
  {
    assert |a| == |multiset(a)| && |b| == |multiset(b)|;
  }

  lemma FirstIsLeast(s: seq<Job>, m: multiset<Job>)
    requires |s| > 0 && IsListing(s, m)
    ensures s[0] in m && (forall o :: o in m ==> Leq(s[0], o))
    ensures IsListing(s[1..], m - multiset{s[0]})
  {
    LeqTotal(s[0], s[0]);
    hide Before;
    assert s == [s[0]] + s[1..];
    forall o | o in m ensures Leq(s[0], o) {
      assert o in s;
      var k :| 0 <= k < |s| && s[k] == o;
    }
  }
}
