/** The duration histogram (src/metrics.rs:44-62). */
module Metrics {
  import opened Types
  import opened Sequences

  const BUCKETS_MS: seq<U64> := [100, 250, 500, 1000, 5000, 10000, 30000, 60000, 300000]

  datatype Histogram = Histogram(buckets: seq<nat>, sum: U64, count: nat)

  // ---- reference: plain counting and exact summing

  function CountUpTo(ds: seq<U64>, bound: U64): nat {
    if ds == [] then 0 else CountUpTo(ds[..|ds| - 1], bound) + if ds[|ds| - 1] <= bound then 1 else 0
  }

  function ExactSum(ds: seq<U64>): nat {
    if ds == [] then 0 else ExactSum(ds[..|ds| - 1]) + ds[|ds| - 1]
  }

  function Counted(ds: seq<U64>): Histogram {
    Histogram(seq(|BUCKETS_MS|, i requires 0 <= i < |BUCKETS_MS| => CountUpTo(ds, BUCKETS_MS[i])),
              Sat(ExactSum(ds)), |ds|)
  }

  // ---- sorting and searching

  predicate Sorted(ds: seq<U64>) {
    forall i, j :: 0 <= i < j < |ds| ==> ds[i] <= ds[j]
  }

  lemma {:induction false} CountSplits(ds: seq<U64>, bound: U64)
    requires Sorted(ds)
    ensures CountUpTo(ds, bound) <= |ds|
    ensures forall i :: 0 <= i < CountUpTo(ds, bound) ==> ds[i] <= bound
    ensures forall i :: CountUpTo(ds, bound) <= i < |ds| ==> ds[i] > bound
  {
    if ds != [] {
      var last := |ds| - 1;
      CountSplits(ds[..last], bound);
      assert forall i :: 0 <= i < last ==> ds[..last][i] == ds[i];
      assert last > 0 ==> ds[last - 1] <= ds[last];
    }
  }

  function Insert(ds: seq<U64>, x: U64): (out: seq<U64>)
    requires Sorted(ds)
    ensures Sorted(out) && multiset(out) == multiset(ds) + multiset{x}
  {
    var k := CountUpTo(ds, x);
    CountSplits(ds, x);
    InsertOne(ds, k, x);
    ds[..k] + [x] + ds[k..]
  }

  /** The library's sort, of which only this contract matters. */
  function Sort(ds: seq<U64>): (out: seq<U64>)
    ensures Sorted(out) && multiset(out) == multiset(ds)
  {
    if ds == [] then []
    else
      assert ds == ds[..|ds| - 1] + [ds[|ds| - 1]];
      Insert(Sort(ds[..|ds| - 1]), ds[|ds| - 1])
  }

  /** Binary search for the number of leading elements at most `bound`. */
  method PartitionPoint(ds: seq<U64>, bound: U64) returns (k: nat)
    requires Sorted(ds)
    ensures k == CountUpTo(ds, bound)
  {
    var lo, hi := 0, |ds|;
    while lo < hi
      invariant 0 <= lo <= hi <= |ds|
      invariant forall i :: 0 <= i < lo ==> ds[i] <= bound
      invariant forall i :: hi <= i < |ds| ==> ds[i] > bound
    {
      var mid := (lo + hi) / 2;
      if ds[mid] <= bound { lo := mid + 1; } else { hi := mid; }
    }
    k := lo;
    SplitCount(ds, lo, bound);
  }

  lemma {:induction false} SplitCount(ds: seq<U64>, k: nat, bound: U64)
    requires k <= |ds|
    requires forall i :: 0 <= i < k ==> ds[i] <= bound
    requires forall i :: k <= i < |ds| ==> ds[i] > bound
    ensures CountUpTo(ds, bound) == k
  {
    if ds != [] {
      SplitCount(ds[..|ds| - 1], if k == |ds| then k - 1 else k, bound);
    }
  }

  // ---- order does not matter

  lemma {:induction false} CountConcat(a: seq<U64>, b: seq<U64>, bound: U64)
    ensures CountUpTo(a + b, bound) == CountUpTo(a, bound) + CountUpTo(b, bound)
    ensures ExactSum(a + b) == ExactSum(a) + ExactSum(b)
    decreases |b|
  {
    if b == [] {
      assert a + b == a;
    } else {
      var n := |b| - 1;
      CountConcat(a, b[..n], bound);
      assert (a + b)[..|a + b| - 1] == a + b[..n];
    }
  }

  lemma {:induction false} CountOne(x: U64, bound: U64)
    ensures CountUpTo([x], bound) == (if x <= bound then 1 else 0) && ExactSum([x]) == x
  {
    assert [x][..0] == [];
  }

  lemma {:induction false} CountCut(a: seq<U64>, x: U64, b: seq<U64>, bound: U64)
    ensures CountUpTo(a + [x] + b, bound) == CountUpTo(a + b, bound) + if x <= bound then 1 else 0
    ensures ExactSum(a + [x] + b) == ExactSum(a + b) + x
  {
    CountConcat(a, b, bound);
    CountConcat(a + [x], b, bound);
    CountConcat(a, [x], bound);
    CountOne(x, bound);
  }

  lemma {:induction false} CountRemove(ds: seq<U64>, i: nat, bound: U64)
    requires i < |ds|
    ensures CountUpTo(ds, bound) == CountUpTo(ds[..i] + ds[i + 1..], bound) + if ds[i] <= bound then 1 else 0
    ensures ExactSum(ds) == ExactSum(ds[..i] + ds[i + 1..]) + ds[i]
  {
    CountCut(ds[..i], ds[i], ds[i + 1..], bound);
    assert ds == ds[..i] + [ds[i]] + ds[i + 1..];
  }

  lemma {:induction false} CountIgnoresOrder(a: seq<U64>, b: seq<U64>, bound: U64)
    requires multiset(a) == multiset(b)
    ensures CountUpTo(a, bound) == CountUpTo(b, bound) && ExactSum(a) == ExactSum(b) && |a| == |b|
    decreases |a|
  {
    if a == [] {
      assert |multiset(b)| == |b|;
    } else {
      var i := MatchLast(a, b);
      CountIgnoresOrder(a[..|a| - 1], b[..i] + b[i + 1..], bound);
      CountRemove(b, i, bound);
    }
  }

  /** Permuting the durations leaves the whole histogram unchanged. */
  lemma HistogramIgnoresOrder(a: seq<U64>, b: seq<U64>)
    requires multiset(a) == multiset(b)
    ensures Counted(a) == Counted(b)
  {
    CountIgnoresOrder(a, b, 0);
    forall i | 0 <= i < |BUCKETS_MS| ensures CountUpTo(a, BUCKETS_MS[i]) == CountUpTo(b, BUCKETS_MS[i]) {
      CountIgnoresOrder(a, b, BUCKETS_MS[i]);
    }
  }

  lemma {:induction false} CountIsMonotone(ds: seq<U64>, low: U64, high: U64)
    requires low <= high
    ensures CountUpTo(ds, low) <= CountUpTo(ds, high) <= |ds|
  {
    if ds != [] {
      CountIsMonotone(ds[..|ds| - 1], low, high);
    }
  }

  /** Bucket values are cumulative: non-decreasing and at most the +Inf count. */
  lemma BucketsAreCumulative(ds: seq<U64>, i: nat, j: nat)
    requires i <= j < |BUCKETS_MS|
    ensures Counted(ds).buckets[i] <= Counted(ds).buckets[j] <= Counted(ds).count
  {
    CountIsMonotone(ds, BUCKETS_MS[i], BUCKETS_MS[j]);
  }

  /** A bucket counts exactly the durations within its bound. */
  lemma {:induction false} CountIsCardinality(ds: seq<U64>, bound: U64)
    ensures CountUpTo(ds, bound) == |set i | 0 <= i < |ds| && ds[i] <= bound|
  {
    if ds != [] {
      var n := |ds| - 1;
      CountIsCardinality(ds[..n], bound);
      var before, all := set i | 0 <= i < n && ds[..n][i] <= bound, set i | 0 <= i < |ds| && ds[i] <= bound;
      assert all == before + if ds[n] <= bound then {n} else {};
    }
  }

  lemma BoundsIncrease()
    ensures |BUCKETS_MS| == 9
    ensures forall i, j :: 0 <= i < j < |BUCKETS_MS| ==> BUCKETS_MS[i] < BUCKETS_MS[j]
  {
  }

  // ---- the rendered numbers

  method SaturatingSum(ds: seq<U64>) returns (sum: U64)
    ensures sum == Sat(ExactSum(ds))
  {
    sum := 0;
    for i := 0 to |ds|
      invariant sum == Sat(ExactSum(ds[..i]))
    {
      assert ds[..i + 1][..i] == ds[..i];
      sum := SatAdd(sum, ds[i]);
    }
    assert ds[..|ds|] == ds;
  }

  /** Sort plus partition point gives the histogram obtained by plain counting. */
  method RenderHistogram(durations: seq<U64>) returns (h: Histogram)
    ensures h == Counted(durations)
    ensures h.count == |durations| && h.sum == Sat(ExactSum(durations)) && |h.buckets| == |BUCKETS_MS|
    ensures BUCKETS_MS == [100, 250, 500, 1_000, 5_000, 10_000, 30_000, 60_000, 300_000]
    ensures forall b :: 0 <= b < |h.buckets| ==>
              h.buckets[b] == |set i | 0 <= i < |durations| && durations[i] <= BUCKETS_MS[b]|
  {
    var sorted := Sort(durations);
    HistogramIgnoresOrder(sorted, durations);
    var sum := SaturatingSum(sorted);
    var buckets: seq<nat> := [];
    for b := 0 to |BUCKETS_MS|
      invariant |buckets| == b
      invariant forall k :: 0 <= k < b ==> buckets[k] == CountUpTo(sorted, BUCKETS_MS[k])
    {
      var count := PartitionPoint(sorted, BUCKETS_MS[b]);
      buckets := buckets + [count];
    }
    h := Histogram(buckets, sum, |sorted|);
    assert h.buckets == Counted(sorted).buckets;
    forall b | 0 <= b < |h.buckets|
      ensures h.buckets[b] == |set i | 0 <= i < |durations| && durations[i] <= BUCKETS_MS[b]|
    {
      CountIsCardinality(durations, BUCKETS_MS[b]);
    }
  }
}
