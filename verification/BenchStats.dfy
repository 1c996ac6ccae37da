/** Benchmark statistics over reals; rounding is kept as the code's function. */
module BenchStats {

  // ---- sorting ----

  predicate Ascending(xs: seq<real>) {
    forall i, j :: 0 <= i < j < |xs| ==> xs[i] <= xs[j]
  }

  lemma AscendingSnoc(r: seq<real>, top: real)
    requires Ascending(r) && (r != [] ==> r[|r| - 1] <= top)
    ensures Ascending(r + [top])
  {
  }

  function InsertInto(xs: seq<real>, x: real): (r: seq<real>)
    requires Ascending(xs)
    ensures Ascending(r) && multiset(r) == multiset(xs) + multiset{x}
    ensures |r| == |xs| + 1 && r[|xs|] == if xs == [] || xs[|xs| - 1] <= x then x else xs[|xs| - 1]
  {
    if xs == [] || xs[|xs| - 1] <= x then
      AscendingSnoc(xs, x);
      xs + [x]
    else
      var n := |xs| - 1;
      assert xs == xs[..n] + [xs[n]];
      var r := InsertInto(xs[..n], x);
      AscendingSnoc(r, xs[n]);
      r + [xs[n]]
  }

  function Sort(xs: seq<real>): (r: seq<real>)
    ensures Ascending(r) && multiset(r) == multiset(xs) && |r| == |xs|
  {
    if xs == [] then []
    else
      var n := |xs| - 1;
      assert xs == xs[..n] + [xs[n]];
      InsertInto(Sort(xs[..n]), xs[n])
  }

  /** An ascending sequence is determined by its multiset. */
  lemma {:induction false} SortedUnique(a: seq<real>, b: seq<real>)
    requires Ascending(a) && Ascending(b) && multiset(a) == multiset(b)
    ensures a == b
    decreases |a|
  {
    assert |multiset(a)| == |a| && |multiset(b)| == |b|;
    if a != [] {
      var n := |a| - 1;
      LastIsGreatest(a, b);
      LastIsGreatest(b, a);
      Without(a, n);
      Without(b, n);
      assert a[..n] + a[n + 1..] == a[..n] && b[..n] + b[n + 1..] == b[..n];
      SortedUnique(a[..n], b[..n]);
    }
  }

  lemma Without<T>(b: seq<T>, j: nat)
    requires j < |b|
    ensures multiset(b[..j] + b[j + 1..]) == multiset(b) - multiset{b[j]}
  {
    assert b == b[..j] + [b[j]] + b[j + 1..];
  }

  lemma LastIsGreatest(a: seq<real>, b: seq<real>)
    requires Ascending(a) && multiset(a) == multiset(b) && b != [] && a != []
    ensures b[|b| - 1] <= a[|a| - 1]
  {
    var x := b[|b| - 1];
    assert x in multiset(a);
    var i :| 0 <= i < |a| && a[i] == x;
  }

  // ---- mean and percentiles ----

  function Sum(xs: seq<real>): real {
    if xs == [] then 0.0 else Sum(xs[..|xs| - 1]) + xs[|xs| - 1]
  }

  function Average(xs: seq<real>): real {
    if xs == [] then 0.0 else Sum(xs) / |xs| as real
  }

  method Mean(xs: seq<real>) returns (m: real)
    ensures m == Average(xs)
  {
    if xs == [] {
      return 0.0;
    }
    var sum := 0.0;
    for i := 0 to |xs|
      invariant sum == Sum(xs[..i])
    {
      assert xs[..i + 1][..i] == xs[..i];
      sum := sum + xs[i];
    }
    assert xs[..|xs|] == xs;
    m := sum / |xs| as real;
  }

  function Ceil(x: real): int {
    -((-x).Floor)
  }

  /** The code's index: ceil(p/100*n - 1e-9) - 1, clamped to the slice. */
  function RankIndex(n: nat, p: real): (i: int)
    ensures n > 0 ==> 0 <= i < n
  {
    var k := Ceil(p / 100.0 * n as real - 0.000000001) - 1;
    if k < 0 then 0 else if k >= n then n - 1 else k
  }

  function Percentile(sorted: seq<real>, p: real): real {
    if sorted == [] then 0.0 else sorted[RankIndex(|sorted|, p)]
  }

  /** For whole percentages the epsilon is harmless: the rank is ceil(p*n/100). */
  lemma NearestRank(n: nat, p: nat)
    requires n > 0 && 1 <= p <= 100
    ensures RankIndex(n, p as real) == (p * n + 99) / 100 - 1
  {
    var k := (p * n + 99) / 100;
    var x := p as real / 100.0 * n as real;
    assert 100 * (k - 1) + 1 <= p * n <= 100 * k;
    Scaled(p, n, x);
    assert 100.0 * x == (p * n) as real;
    assert (k - 1) as real < x - 0.000000001 <= k as real;
    assert Ceil(x - 0.000000001) == k;
    RankInRange(n, p, k);
  }

  lemma Scaled(p: nat, n: nat, x: real)
    requires x == p as real / 100.0 * n as real
    ensures 100.0 * x == (p * n) as real
  {
    assert p as real * n as real == (p * n) as real;
    assert 100.0 * x == p as real * n as real;
  }

  lemma RankInRange(n: nat, p: nat, k: int)
    requires n > 0 && 1 <= p <= 100 && k == (p * n + 99) / 100
    ensures 1 <= k <= n
  {
    Between(n, p);
    RankOf(p * n, n, k);
  }

  lemma Between(n: nat, p: nat)
    requires 1 <= p <= 100
    ensures n <= p * n <= 100 * n
  {
    assert p * n == n + (p - 1) * n && (p - 1) * n >= 0;
    assert 100 * n == p * n + (100 - p) * n && (100 - p) * n >= 0;
  }

  lemma RankOf(x: nat, n: nat, k: int)
    requires 0 < n <= x <= 100 * n && k == (x + 99) / 100
    ensures 1 <= k <= n
  {
  }

  function CountBelow(xs: seq<real>, v: real): nat {
    if xs == [] then 0
    else CountBelow(xs[..|xs| - 1], v) + if xs[|xs| - 1] < v then 1 else 0
  }

  function CountUpto(xs: seq<real>, v: real): nat {
    if xs == [] then 0
    else CountUpto(xs[..|xs| - 1], v) + if xs[|xs| - 1] <= v then 1 else 0
  }

  lemma {:induction false} SortedCounts(xs: seq<real>, k: nat, v: real)
    requires Ascending(xs) && k <= |xs|
    requires forall i :: 0 <= i < k ==> xs[i] <= v
    requires forall i :: k <= i + 1 && i < |xs| && 0 <= i ==> v <= xs[i]
    ensures CountUpto(xs, v) >= k && CountBelow(xs, v) <= if k > 0 then k - 1 else 0
  {
    if xs != [] {
      var n := |xs| - 1;
      if k <= n {
        SortedCounts(xs[..n], k, v);
      } else {
        SortedCountsAll(xs[..n], v);
      }
    }
  }

  lemma {:induction false} SortedCountsAll(xs: seq<real>, v: real)
    requires forall i :: 0 <= i < |xs| ==> xs[i] <= v
    ensures CountUpto(xs, v) == |xs| && CountBelow(xs, v) <= |xs|
  {
    if xs != [] {
      SortedCountsAll(xs[..|xs| - 1], v);
    }
  }

  lemma {:induction false} CountsArePermutationFree(a: seq<real>, b: seq<real>, v: real)
    requires multiset(a) == multiset(b)
    ensures CountBelow(a, v) == CountBelow(b, v) && CountUpto(a, v) == CountUpto(b, v)
    decreases |a|
  {
    assert |multiset(a)| == |a| && |multiset(b)| == |b|;
    if a != [] {
      var n := |a| - 1;
      var x := a[n];
      assert x in multiset(a);
      var j :| 0 <= j < |b| && b[j] == x;
      var rest := b[..j] + b[j + 1..];
      Without(a, n);
      Without(b, j);
      assert a[..n] + a[n + 1..] == a[..n];
      CountsArePermutationFree(a[..n], rest, v);
      CountsWithout(b, j, v);
    }
  }

  lemma {:induction false} CountsWithout(b: seq<real>, j: nat, v: real)
    requires j < |b|
    ensures var rest := b[..j] + b[j + 1..];
            && CountBelow(b, v) == CountBelow(rest, v) + (if b[j] < v then 1 else 0)
            && CountUpto(b, v) == CountUpto(rest, v) + if b[j] <= v then 1 else 0
  {
    var n := |b| - 1;
    var rest := b[..j] + b[j + 1..];
    if j == n {
      assert rest == b[..n];
    } else {
      CountsWithout(b[..n], j, v);
      assert b[..n][..j] + b[..n][j + 1..] == rest[..n - 1];
      assert rest[n - 1] == b[n];
    }
  }

  /** v is the k-th smallest sample, ties included. */
  predicate IsKthSmallest(samples: seq<real>, k: int, v: real) {
    v in samples && CountBelow(samples, v) < k <= CountUpto(samples, v)
  }

  /** The p-th percentile is the ceil(p*n/100)-th smallest sample. */
  lemma PercentileMeaning(samples: seq<real>, p: nat, k: int)
    requires samples != [] && 1 <= p <= 100 && k == (p * |samples| + 99) / 100
    ensures IsKthSmallest(samples, k, Percentile(Sort(samples), p as real))
  {
    var xs := Sort(samples);
    PercentileAt(xs, p, k);
    KthSmallest(samples, xs, k);
  }

  lemma PercentileAt(xs: seq<real>, p: nat, k: int)
    requires xs != [] && 1 <= p <= 100 && k == (p * |xs| + 99) / 100
    ensures 1 <= k <= |xs| && Percentile(xs, p as real) == xs[k - 1]
  {
    NearestRank(|xs|, p);
    RankInRange(|xs|, p, k);
  }

  lemma KthSmallest(samples: seq<real>, xs: seq<real>, k: nat)
    requires Ascending(xs) && multiset(xs) == multiset(samples) && 1 <= k <= |xs|
    ensures IsKthSmallest(samples, k, xs[k - 1])
  {
    var v := xs[k - 1];
    assert v in multiset(xs);
    SortedCounts(xs, k, v);
    CountsArePermutationFree(samples, xs, v);
  }

  // ---- summaries ----

  /** Half away from zero, as Go rounds. */
  function RoundHalfAway(x: real): int {
    if x >= 0.0 then (x + 0.5).Floor else -((-x + 0.5).Floor)
  }

  function Round2(x: real): real {
    RoundHalfAway(x * 100.0) as real / 100.0
  }

  function Round1(x: real): real {
    RoundHalfAway(x * 10.0) as real / 10.0
  }

  function Round3(x: real): real {
    RoundHalfAway(x * 1000.0) as real / 1000.0
  }

  function Abs(x: real): real {
    if x < 0.0 then -x else x
  }

  /** The nearest whole number; of two equally near, the one farther from zero. */
  lemma RoundIsNearest(x: real)
    ensures var r := RoundHalfAway(x) as real;
            Abs(r - x) <= 0.5 && (Abs(r - x) == 0.5 ==> Abs(r) > Abs(x))
  {
  }

  /** r is x rounded to the nearest 1/steps. */
  predicate RoundedTo(r: real, x: real, steps: int)
    requires steps > 0
  {
    && (r * steps as real).Floor as real == r * steps as real
    && Abs(r - x) * (2 * steps) as real <= 1.0
  }

  lemma OnGrid(r: real, x: real, steps: int)
    requires steps > 0 && r * steps as real == RoundHalfAway(x * steps as real) as real
    ensures RoundedTo(r, x, steps)
  {
    RoundIsNearest(x * steps as real);
    ScaledError(r, x, steps as real);
  }

  lemma ScaledError(r: real, x: real, s: real)
    requires s > 0.0 && Abs(r * s - x * s) <= 0.5
    ensures Abs(r - x) * (2.0 * s) <= 1.0
  {
    assert r * s - x * s == (r - x) * s;
    assert Abs((r - x) * s) == Abs(r - x) * s by {
      AbsTimes(r - x, s);
    }
  }

  lemma AbsTimes(y: real, s: real)
    requires s > 0.0
    ensures Abs(y * s) == Abs(y) * s
  {
  }

  /** The three rounding functions: to tenths, hundredths and thousandths. */
  lemma Roundings(x: real)
    ensures RoundedTo(Round1(x), x, 10) && RoundedTo(Round2(x), x, 100) && RoundedTo(Round3(x), x, 1000)
  {
    Tenths(x);
    Hundredths(x);
    Thousandths(x);
  }

  lemma Tenths(x: real)
    ensures RoundedTo(Round1(x), x, 10)
  {
    OnGrid(Round1(x), x, 10);
  }

  lemma Hundredths(x: real)
    ensures RoundedTo(Round2(x), x, 100)
  {
    OnGrid(Round2(x), x, 100);
  }

  lemma Thousandths(x: real)
    ensures RoundedTo(Round3(x), x, 1000)
  {
    OnGrid(Round3(x), x, 1000);
  }

  datatype Failures = Failures(timeouts: nat, nonOK: nat, other: nat) {
    function Total(): nat {
      timeouts + nonOK + other
    }

    function Plus(f: Failures): Failures {
      Failures(timeouts + f.timeouts, nonOK + f.nonOK, other + f.other)
    }
  }

  datatype Status = Pass | PassWithFailures | FailTimeout | FailNoData

  datatype Stats = Stats(
    status: Status, n: nat, p50: real, p90: real, p99: real, avg: real, min: real, max: real,
    spansPerSecond: real, attempted: nat, failures: Failures, failureRatePct: real)

  function FailurePct(total: nat, attempted: nat): real {
    if attempted == 0 then 0.0 else Round2(total as real * 100.0 / attempted as real)
  }

  function FailureRate(n: nat, fb: Failures): real {
    if fb.Total() == 0 then 0.0 else FailurePct(fb.Total(), n + fb.Total())
  }

  function Throughput(spans: nat, avg: real): real {
    if avg > 0.0 then Round1(spans as real * 1000.0 / avg) else 0.0
  }

  /** The status a path earns by itself. */
  function EarnedStatus(succeeded: bool, failures: nat): Status {
    if succeeded then if failures == 0 then Pass else PassWithFailures
    else if failures == 0 then FailNoData else FailTimeout
  }

  function SummaryOfSorted(xs: seq<real>, fb: Failures, spans: nat): Stats {
    var total := fb.Total();
    var attempted := |xs| + total;
    var rate := FailureRate(|xs|, fb);
    if xs == [] then
      Stats(EarnedStatus(false, total), 0, 0.0, 0.0, 0.0, 0.0, 0.0, 0.0, 0.0, attempted, fb, rate)
    else
      var avg := Average(xs);
      Stats(EarnedStatus(true, total), |xs|,
            Round2(Percentile(xs, 50.0)), Round2(Percentile(xs, 90.0)), Round2(Percentile(xs, 99.0)),
            Round2(avg), Round2(xs[0]), Round2(xs[|xs| - 1]),
            Throughput(spans, avg),
            attempted, fb, rate)
  }

  /** `SummarizeWithFailures`: a sorted copy of the samples, and the failure counts, determine the result. */
  function Summary(samples: seq<real>, fb: Failures, spans: nat): Stats {
    SummaryOfSorted(Sort(samples), fb, spans)
  }

  lemma SummaryStatus(samples: seq<real>, fb: Failures, spans: nat)
    ensures Summary(samples, fb, spans).status == EarnedStatus(samples != [], fb.Total())
  {
    assert |Sort(samples)| == |samples|;
  }

  /** The summary depends only on which samples there are, not on their order. */
  lemma OrderFree(a: seq<real>, b: seq<real>, fb: Failures, spans: nat)
    requires multiset(a) == multiset(b)
    ensures Summary(a, fb, spans) == Summary(b, fb, spans)
  {
    SortedUnique(Sort(a), Sort(b));
  }

  lemma {:induction false} SumIsPermutationFree(a: seq<real>, b: seq<real>)
    requires multiset(a) == multiset(b)
    ensures Sum(a) == Sum(b)
    decreases |a|
  {
    assert |multiset(a)| == |a| && |multiset(b)| == |b|;
    if a != [] {
      var n := |a| - 1;
      assert a[n] in multiset(a);
      var j :| 0 <= j < |b| && b[j] == a[n];
      Without(a, n);
      Without(b, j);
      assert a[..n] + a[n + 1..] == a[..n];
      SumIsPermutationFree(a[..n], b[..j] + b[j + 1..]);
      SumOfRest(b, j);
    }
  }

  lemma {:induction false} SumOfRest(b: seq<real>, j: nat)
    requires j < |b|
    ensures Sum(b) == Sum(b[..j] + b[j + 1..]) + b[j]
  {
    var n := |b| - 1;
    var rest := b[..j] + b[j + 1..];
    if j == n {
      assert rest == b[..n];
    } else {
      SumOfRest(b[..n], j);
      assert b[..n][..j] + b[..n][j + 1..] == rest[..n - 1];
      assert rest[n - 1] == b[n];
    }
  }

  /** What the fields of a summary say about the samples as they were given. */
  lemma SummaryMeaning(samples: seq<real>, fb: Failures, spans: nat) returns (v50: real, v90: real, v99: real)
    requires samples != []
    ensures var r, n := Summary(samples, fb, spans), |samples|;
            && r.n == n && r.attempted == n + fb.Total() && r.failures == fb
            && IsKthSmallest(samples, (50 * n + 99) / 100, v50) && r.p50 == Round2(v50)
            && IsKthSmallest(samples, (90 * n + 99) / 100, v90) && r.p90 == Round2(v90)
            && IsKthSmallest(samples, (99 * n + 99) / 100, v99) && r.p99 == Round2(v99)
            && r.avg == Round2(Sum(samples) / n as real)
            && (exists lo :: lo in samples && r.min == Round2(lo) && forall x :: x in samples ==> lo <= x)
            && (exists hi :: hi in samples && r.max == Round2(hi) && forall x :: x in samples ==> x <= hi)
  {
    var xs := Sort(samples);
    v50, v90, v99 := Percentile(xs, 50.0), Percentile(xs, 90.0), Percentile(xs, 99.0);
    var n := |samples|;
    PercentileMeaning(samples, 50, (50 * n + 99) / 100);
    PercentileMeaning(samples, 90, (90 * n + 99) / 100);
    PercentileMeaning(samples, 99, (99 * n + 99) / 100);
    SumIsPermutationFree(samples, xs);
    Extremes(samples, xs);
  }

  /** What the counts and the status say. */
  lemma CountsMeaning(samples: seq<real>, fb: Failures, spans: nat)
    ensures var r, n, failed := Summary(samples, fb, spans), |samples|, fb.timeouts + fb.nonOK + fb.other;
            && r.n == n && r.attempted == n + failed && r.failures == fb
            && r.status == (if n > 0 then if failed == 0 then Pass else PassWithFailures
                            else if failed == 0 then FailNoData else FailTimeout)
  {
    assert |Sort(samples)| == |samples|;
  }

  predicate IsRate(r: real, n: nat, failed: nat) {
    if failed == 0 then r == 0.0 else RoundedTo(r, failed as real * 100.0 / (n + failed) as real, 100)
  }

  /** The failure rate is the percentage of the attempts that failed, to the nearest hundredth. */
  lemma RateMeaning(samples: seq<real>, fb: Failures, spans: nat)
    ensures IsRate(Summary(samples, fb, spans).failureRatePct, |samples|, fb.timeouts + fb.nonOK + fb.other)
  {
    RateIs(samples, fb, spans);
    RateRounds(Summary(samples, fb, spans).failureRatePct, |samples|, fb);
  }

  lemma RateIs(samples: seq<real>, fb: Failures, spans: nat)
    ensures Summary(samples, fb, spans).failureRatePct == FailureRate(|samples|, fb)
  {
    assert |Sort(samples)| == |samples|;
  }

  lemma RateRounds(r: real, n: nat, fb: Failures)
    requires r == FailureRate(n, fb)
    ensures IsRate(r, n, fb.timeouts + fb.nonOK + fb.other)
  {
    if fb.Total() > 0 {
      Hundredths(fb.Total() as real * 100.0 / (n + fb.Total()) as real);
    }
  }

  /** The throughput is the number of spans per second at the mean latency, to the nearest tenth. */
  lemma ThroughputMeaning(samples: seq<real>, fb: Failures, spans: nat)
    ensures var r, n := Summary(samples, fb, spans).spansPerSecond, |samples|;
            if n == 0 || Sum(samples) <= 0.0 then r == 0.0
            else RoundedTo(r, spans as real * 1000.0 / (Sum(samples) / n as real), 10)
  {
    var xs := Sort(samples);
    SumIsPermutationFree(samples, xs);
    if samples != [] {
      MeanThroughput(spans, Sum(samples), |samples|);
    }
  }

  lemma MeanThroughput(spans: nat, sum: real, n: nat)
    requires n > 0
    ensures var r := Throughput(spans, sum / n as real);
            if sum <= 0.0 then r == 0.0 else RoundedTo(r, spans as real * 1000.0 / (sum / n as real), 10)
  {
    var mean := sum / n as real;
    MeanSign(sum, n);
    if sum > 0.0 {
      Tenths(spans as real * 1000.0 / mean);
    }
  }

  lemma MeanSign(sum: real, n: nat)
    requires n > 0
    ensures sum / n as real > 0.0 <==> sum > 0.0
  {
  }

  lemma Extremes(samples: seq<real>, xs: seq<real>)
    requires samples != [] && Ascending(xs) && multiset(xs) == multiset(samples)
    ensures xs != [] && xs[0] in samples && xs[|xs| - 1] in samples
    ensures forall x :: x in samples ==> xs[0] <= x <= xs[|xs| - 1]
  {
    assert |multiset(xs)| == |xs| && |multiset(samples)| == |samples|;
    assert xs[0] in multiset(xs) && xs[|xs| - 1] in multiset(xs);
    forall x | x in samples
      ensures xs[0] <= x <= xs[|xs| - 1]
    {
      assert x in multiset(samples);
      var i :| 0 <= i < |xs| && xs[i] == x;
    }
  }
}
