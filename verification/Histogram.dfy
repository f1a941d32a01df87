/** The fixed-bucket histogram of the hello guest: one count per bucket, cumulative when rendered. */
module Histogram {
  import opened Sorting
  import opened Counting

  predicate Ascending(bounds: seq<real>) {
    forall i, j :: 0 <= i < j < |bounds| ==> bounds[i] <= bounds[j]
  }

  function Itself(x: real): real { x }

  lemma SortedAscends(bounds: seq<real>)
    ensures Ascending(StableSort(bounds, Itself)) && multiset(StableSort(bounds, Itself)) == multiset(bounds)
  {
    StableSortSorts(bounds, Itself);
  }

  /** `i` is the first bucket whose bound is not below `v`. */
  predicate IsSlot(bounds: seq<real>, v: real, i: nat) {
    && i <= |bounds|
    && (forall k :: 0 <= k < i ==> bounds[k] < v)
    && (i < |bounds| ==> v <= bounds[i])
  }

  /** Observations that fall into bucket `i`. */
  ghost function InBucket(observed: seq<real>, bounds: seq<real>, i: nat): nat {
    if observed == [] then 0
    else
      var n := |observed| - 1;
      InBucket(observed[..n], bounds, i) + if IsSlot(bounds, observed[n], i) then 1 else 0
  }

  function AtMost(observed: seq<real>, b: real): nat {
    if observed == [] then 0
    else
      var n := |observed| - 1;
      AtMost(observed[..n], b) + if observed[n] <= b then 1 else 0
  }

  /** As a number of positions. */
  lemma {:induction false} AtMostUpTo(observed: seq<real>, b: real, n: nat)
    requires n <= |observed|
    ensures AtMost(observed[..n], b) == |set k: nat | k < n && observed[k] <= b|
  {
    var hits := set k: nat | k < n && observed[k] <= b;
    if n == 0 {
      NoPosition(hits);
    } else {
      AtMostUpTo(observed, b, n - 1);
      assert observed[..n][..n - 1] == observed[..n - 1];
      OneMorePosition(n - 1, (set k: nat | k < n - 1 && observed[k] <= b), hits, observed[n - 1] <= b);
    }
  }

  lemma AtMostCounts(observed: seq<real>, b: real)
    ensures AtMost(observed, b) == |set k: nat | k < |observed| && observed[k] <= b|
  {
    AtMostUpTo(observed, b, |observed|);
    assert observed[..|observed|] == observed;
  }

  function Sum(observed: seq<real>): real {
    if observed == [] then 0.0 else Sum(observed[..|observed| - 1]) + observed[|observed| - 1]
  }

  /** Running total of the first `k` buckets. */
  ghost function Cumulative(observed: seq<real>, bounds: seq<real>, k: nat): nat {
    if k == 0 then 0 else Cumulative(observed, bounds, k - 1) + InBucket(observed, bounds, k - 1)
  }

  lemma {:induction false} CumulativeOneMore(observed: seq<real>, v: real, bounds: seq<real>, i: nat, k: nat)
    requires IsSlot(bounds, v, i)
    ensures Cumulative(observed + [v], bounds, k) == Cumulative(observed, bounds, k) + if i < k then 1 else 0
  {
    if k > 0 {
      hide IsSlot;
      CumulativeOneMore(observed, v, bounds, i, k - 1);
      assert (observed + [v])[..|observed|] == observed;
      SlotIsUnique(bounds, v, i, k - 1);
    }
  }

  lemma SlotIsUnique(bounds: seq<real>, v: real, i: nat, j: nat)
    requires IsSlot(bounds, v, i)
    ensures IsSlot(bounds, v, j) <==> i == j
  {
  }

  lemma HasSlot(bounds: seq<real>, v: real) returns (i: nat)
    requires Ascending(bounds)
    ensures IsSlot(bounds, v, i)
    ensures forall k :: 0 <= k < |bounds| ==> (v <= bounds[k] <==> i <= k)
  {
    i := 0;
    while i < |bounds| && bounds[i] < v
      invariant i <= |bounds| && forall k :: 0 <= k < i ==> bounds[k] < v
    {
      i := i + 1;
    }
  }

  /** The running total at a bound counts exactly the observations at most that bound. */
  lemma {:induction false} CumulativeIsAtMost(observed: seq<real>, bounds: seq<real>, k: nat)
    requires Ascending(bounds) && k < |bounds|
    ensures Cumulative(observed, bounds, k + 1) == AtMost(observed, bounds[k])
  {
    if observed == [] {
      NothingCumulates(bounds, k + 1);
    } else {
      var n := |observed| - 1;
      CumulativeIsAtMost(observed[..n], bounds, k);
      var i := HasSlot(bounds, observed[n]);
      CumulativeOneMore(observed[..n], observed[n], bounds, i, k + 1);
      assert observed == observed[..n] + [observed[n]];
    }
  }

  lemma {:induction false} NothingCumulates(bounds: seq<real>, k: nat)
    ensures Cumulative([], bounds, k) == 0
  {
    if k > 0 {
      NothingCumulates(bounds, k - 1);
    }
  }

  /** All buckets together count everything. */
  lemma {:induction false} CumulativeIsTotal(observed: seq<real>, bounds: seq<real>)
    requires Ascending(bounds)
    ensures Cumulative(observed, bounds, |bounds| + 1) == |observed|
  {
    if observed == [] {
      NothingCumulates(bounds, |bounds| + 1);
    } else {
      var n := |observed| - 1;
      CumulativeIsTotal(observed[..n], bounds);
      var i := HasSlot(bounds, observed[n]);
      CumulativeOneMore(observed[..n], observed[n], bounds, i, |bounds| + 1);
      assert observed == observed[..n] + [observed[n]];
    }
  }

  /** The first index whose bound is at least `v`, by bisection. */
  method SearchFloat64s(bounds: seq<real>, v: real) returns (i: nat)
    requires Ascending(bounds)
    ensures IsSlot(bounds, v, i)
  {
    i := 0;
    var j := |bounds|;
    while i < j
      invariant i <= j <= |bounds|
      invariant forall k :: 0 <= k < i ==> bounds[k] < v
      invariant forall k :: j <= k < |bounds| ==> v <= bounds[k]
    {
      var h := (i + j) / 2;
      if bounds[h] < v {
        i := h + 1;
      } else {
        j := h;
      }
    }
  }

  datatype Rendered = Rendered(buckets: seq<nat>, infinity: nat, sum: real, count: nat)

  class Histogram {
    const bounds: seq<real>
    const counts: array<nat>
    var sum: real
    var total: nat
    ghost var observed: seq<real>

    ghost predicate Valid()
      reads this, counts
    {
      && Ascending(bounds) && counts.Length == |bounds| + 1
      && (forall i :: 0 <= i < counts.Length ==> counts[i] == InBucket(observed, bounds, i))
      && sum == Sum(observed) && total == |observed|
    }

    constructor (bounds: seq<real>)
      ensures Valid() && observed == [] && fresh(counts)
      ensures multiset(this.bounds) == multiset(bounds)
      ensures forall i, j :: 0 <= i < j < |this.bounds| ==> this.bounds[i] <= this.bounds[j]
      ensures sum == 0.0 && total == 0
    {
      SortedAscends(bounds);
      this.bounds := StableSort(bounds, Itself);
      this.counts := new nat[|StableSort(bounds, Itself)| + 1](_ => 0);
      sum, total, observed := 0.0, 0, [];
    }

    method Observe(v: real)
      requires Valid()
      modifies this`sum, this`total, this`observed, counts
      ensures Valid() && observed == old(observed) + [v]
      ensures sum == old(sum) + v && total == old(total) + 1
    {
      var i := SearchFloat64s(bounds, v);
      counts[i] := counts[i] + 1;
      sum := sum + v;
      total := total + 1;
      ghost var before := observed;
      observed := observed + [v];
      assert observed[..|before|] == before;
      forall k | 0 <= k < counts.Length ensures counts[k] == InBucket(observed, bounds, k) {
        SlotIsUnique(bounds, v, i, k);
      }
    }

    /** Each rendered bucket is the number of observations at most its bound; +Inf is all of them. */
    method Render() returns (r: Rendered)
      requires Valid()
      ensures |r.buckets| == |bounds|
      ensures forall i :: 0 <= i < |bounds| ==> r.buckets[i] == AtMost(observed, bounds[i])
      ensures forall i :: 0 <= i < |bounds| ==> r.buckets[i] == |set k: nat | k < |observed| && observed[k] <= bounds[i]|
      ensures r.sum == sum
      ensures r.infinity == r.count == |observed| && r.sum == Sum(observed)
    {
      var cum, buckets := 0, [];
      for i := 0 to |bounds|
        invariant cum == Cumulative(observed, bounds, i) && |buckets| == i
        invariant forall k :: 0 <= k < i ==> buckets[k] == AtMost(observed, bounds[k])
      {
        cum := cum + counts[i];
        CumulativeIsAtMost(observed, bounds, i);
        buckets := buckets + [cum];
      }
      cum := cum + counts[|bounds|];
      CumulativeIsTotal(observed, bounds);
      forall i | 0 <= i < |bounds|
        ensures AtMost(observed, bounds[i]) == |set k: nat | k < |observed| && observed[k] <= bounds[i]|
      {
        AtMostCounts(observed, bounds[i]);
      }
      return Rendered(buckets, cum, sum, total);
    }
  }
}
