/** Repeated latency tests and their summary (`batch_test.py`). The
    measured latency of each iteration is an input, an integer number of
    microseconds. A result stores it rounded to hundredths of a millisecond
    (`round(latency, 2)`), while its status is decided on the unrounded
    value; the statistics over stored latencies are kept exact. */
module Batch {
  import opened Common

  datatype Status = Success | Warning | Error

  /** One entry of `results`; `latencyCs` is the stored `latency_ms` in
      hundredths of a millisecond. */
  datatype TestResult = TestResult(testId: int, latencyCs: int, status: Status, error: Option<string>)

  /** The per-test status rule, on the unrounded latency: below the threshold
      (milliseconds) is a success, otherwise a warning. */
  function StatusFor(latencyUs: int, threshold: int): (s: Status)
    ensures s == Success <==> latencyUs < threshold * 1000
    ensures s == Warning <==> latencyUs >= threshold * 1000
  {
    if latencyUs < threshold * 1000 then Success else Warning
  }

  /** `round(latency, 2)` for a latency of `us` microseconds, in hundredths of
      a millisecond: the nearest hundredth, a tie going to the even one. */
  function RoundToHundredths(us: int): (cs: int)
    ensures -5 <= us - 10 * cs <= 5
    ensures us - 10 * cs == 5 ==> cs % 2 == 0
    ensures us - 10 * cs == -5 ==> cs % 2 == 0
  {
    var q := us / 10;
    var rem := us % 10;
    if rem < 5 then q
    else if rem > 5 then q + 1
    else if q % 2 == 0 then q
    else q + 1
  }

  /** How one iteration of `run_batch_tests` ended. */
  datatype Attempt = Completed(latencyUs: int) | Raised(reason: string) | Interrupted

  /** The result appended for an iteration that did not interrupt the batch:
      the measured one, or an error result with latency 0. */
  function ResultFor(testId: int, a: Attempt, threshold: int): (r: TestResult)
    requires !a.Interrupted?
    ensures r.testId == testId
    ensures a.Raised? ==> r == TestResult(testId, 0, Error, Some(a.reason))
    ensures a.Completed? ==> r.error.None? && r.status != Error
    ensures a.Completed? ==> -5 <= a.latencyUs - 10 * r.latencyCs <= 5
  {
    match a
    case Completed(latency) => TestResult(testId, RoundToHundredths(latency), StatusFor(latency, threshold), None)
    case Raised(reason) => TestResult(testId, 0, Error, Some(reason))
  }

  /** Results of the iterations numbered from `firstId`, stopping at an interruption. */
  function Collect(firstId: int, attempts: seq<Attempt>, threshold: int): (r: seq<TestResult>)
    ensures |r| <= |attempts|
    ensures forall k :: 0 <= k < |r| ==> !attempts[k].Interrupted? && r[k] == ResultFor(firstId + k, attempts[k], threshold)
    ensures |r| < |attempts| ==> attempts[|r|].Interrupted?
    decreases |attempts|
  {
    if |attempts| == 0 || attempts[0].Interrupted? then []
    else [ResultFor(firstId, attempts[0], threshold)] + Collect(firstId + 1, attempts[1..], threshold)
  }

  /** `run_batch_tests`: iterations 1..testCount; `attempts[i - 1]` is how iteration `i` ended. */
  function RunBatch(testCount: int, threshold: int, attempts: seq<Attempt>): (r: seq<TestResult>)
    requires testCount <= |attempts|
    ensures |r| <= Max(testCount, 0)
    ensures forall k :: 0 <= k < |r| ==> r[k].testId == k + 1
    ensures (forall k :: 0 <= k < testCount ==> !attempts[k].Interrupted?) ==> |r| == Max(testCount, 0)
  {
    Collect(1, attempts[..Max(testCount, 0)], threshold)
  }

  /** An iteration that raised is recorded, not dropped: an error result with
      latency 0 and the exception's text, under its own test id. */
  lemma {:induction false} RaisedIsRecorded(testCount: int, threshold: int, attempts: seq<Attempt>, k: nat)
    requires testCount <= |attempts|
    requires k < testCount && attempts[k].Raised?
    requires forall j :: 0 <= j < k ==> !attempts[j].Interrupted?
    ensures k < |RunBatch(testCount, threshold, attempts)|
    ensures RunBatch(testCount, threshold, attempts)[k]
              == TestResult(k + 1, 0, Error, Some(attempts[k].reason))
  {
    var prefix := attempts[..Max(testCount, 0)];
    assert forall j :: 0 <= j <= k ==> prefix[j] == attempts[j];
  }

  // ---------------------------------------------------------------------------
  // generate_report

  datatype Summary = Summary(total: nat, successful: nat, errors: nat, warnings: nat, successRate: real)

  datatype LatencyStats = LatencyStats(minMs: int, maxMs: int, meanMs: real, variance: real)

  datatype ThresholdAnalysis = ThresholdAnalysis(thresholdMs: int, below: nat, above: nat)

  const NoResultsError := "没有测试结果"
  const NoSuccessesError := "没有成功的测试结果"

  datatype BatchReport =
      /** `{"error": ...}` alone: there were no results at all. */
    | NoResults(error: string)
    | WithLatencies(summary: Summary, stats: LatencyStats, analysis: ThresholdAnalysis, details: seq<TestResult>)
      /** Results exist but none succeeded: the summary, an `error` text and the results. */
    | NoSuccesses(summary: Summary, error: string, details: seq<TestResult>)

  /** The results with status `st`, in their original order: exactly the
      results with that status, each as often as it occurs. */
  function Filter(rs: seq<TestResult>, st: Status): (r: seq<TestResult>)
    ensures |r| <= |rs|
    ensures forall k :: 0 <= k < |r| ==> r[k].status == st
    ensures forall x :: x in r <==> x in rs && x.status == st
  {
    if |rs| == 0 then []
    else (if rs[0].status == st then [rs[0]] else []) + Filter(rs[1..], st)
  }

  /** Each result with status `st` is kept as often as it occurs, and no other. */
  lemma {:induction false} FilterCounts(rs: seq<TestResult>, st: Status, x: TestResult)
    ensures multiset(Filter(rs, st))[x] == if x.status == st then multiset(rs)[x] else 0
  {
    if |rs| > 0 {
      FilterCounts(rs[1..], st, x);
      assert rs == [rs[0]] + rs[1..];
    }
  }

  /** Filtering distributes over concatenation, so it keeps the order. */
  lemma {:induction false} FilterAppend(a: seq<TestResult>, b: seq<TestResult>, st: Status)
    ensures Filter(a + b, st) == Filter(a, st) + Filter(b, st)
  {
    if |a| > 0 {
      var head := if a[0].status == st then [a[0]] else [];
      assert (a + b)[0] == a[0];
      assert (a + b)[1..] == a[1..] + b;
      assert Filter(a + b, st) == head + Filter(a[1..] + b, st);
      FilterAppend(a[1..], b, st);
      assert Filter(a, st) == head + Filter(a[1..], st);
    } else {
      assert a + b == b;
    }
  }

  /** The three status filters partition the results. */
  lemma {:induction false} FilterPartition(rs: seq<TestResult>)
    ensures |Filter(rs, Success)| + |Filter(rs, Error)| + |Filter(rs, Warning)| == |rs|
  {
    if |rs| > 0 {
      FilterPartition(rs[1..]);
    }
  }

  function Latencies(rs: seq<TestResult>): (r: seq<int>)
    ensures |r| == |rs|
    ensures forall k :: 0 <= k < |rs| ==> r[k] == rs[k].latencyCs
  {
    seq(|rs|, k requires 0 <= k < |rs| => rs[k].latencyCs)
  }

  function MinOf(xs: seq<int>): (m: int)
    requires |xs| > 0
    ensures m in xs
    ensures forall k :: 0 <= k < |xs| ==> m <= xs[k]
  {
    if |xs| == 1 then xs[0] else Min(xs[0], MinOf(xs[1..]))
  }

  function MaxOf(xs: seq<int>): (m: int)
    requires |xs| > 0
    ensures m in xs
    ensures forall k :: 0 <= k < |xs| ==> xs[k] <= m
  {
    if |xs| == 1 then xs[0] else Max(xs[0], MaxOf(xs[1..]))
  }

  function Sum(xs: seq<int>): int {
    if |xs| == 0 then 0 else xs[0] + Sum(xs[1..])
  }

  /** The sum lies between |xs| times the minimum and |xs| times the maximum. */
  lemma {:induction false} SumBounds(xs: seq<int>, lo: int, hi: int)
    requires forall k :: 0 <= k < |xs| ==> lo <= xs[k] <= hi
    ensures |xs| * lo <= Sum(xs) <= |xs| * hi
  {
    if |xs| > 0 {
      SumBounds(xs[1..], lo, hi);
    }
  }

  function Mean(xs: seq<int>): real
    requires |xs| > 0
  {
    Sum(xs) as real / |xs| as real
  }

  function SquaredDeviations(xs: seq<int>, mean: real): (r: real)
    ensures r >= 0.0
  {
    if |xs| == 0 then 0.0
    else (xs[0] as real - mean) * (xs[0] as real - mean) + SquaredDeviations(xs[1..], mean)
  }

  /** `statistics.stdev` squared (the sample variance) for two or more values, else 0. */
  function SampleVariance(xs: seq<int>): (v: real)
    requires |xs| > 0
    ensures v >= 0.0
    ensures |xs| == 1 ==> v == 0.0
  {
    if |xs| > 1 then SquaredDeviations(xs, Mean(xs)) / (|xs| - 1) as real else 0.0
  }

  function CountBelow(xs: seq<int>, threshold: int): (n: nat)
    ensures n <= |xs|
  {
    if |xs| == 0 then 0 else (if xs[0] < threshold then 1 else 0) + CountBelow(xs[1..], threshold)
  }

  function CountAtOrAbove(xs: seq<int>, threshold: int): (n: nat)
    ensures n <= |xs|
  {
    if |xs| == 0 then 0 else (if xs[0] >= threshold then 1 else 0) + CountAtOrAbove(xs[1..], threshold)
  }

  function CountEqual(xs: seq<int>, value: int): (n: nat)
    ensures n <= |xs|
  {
    if |xs| == 0 then 0 else (if xs[0] == value then 1 else 0) + CountEqual(xs[1..], value)
  }

  /** `generate_report` of `BatchTestRunner`. Latencies and the threshold
      split are in hundredths of a millisecond, the threshold in milliseconds. */
  function GenerateReport(results: seq<TestResult>, threshold: int): (rep: BatchReport)
    ensures rep.NoResults? <==> |results| == 0
    ensures rep.NoResults? ==> rep.error == NoResultsError
    ensures rep.NoSuccesses? ==> rep.error == NoSuccessesError
    ensures !rep.NoResults? ==> rep.details == results && rep.summary.total == |results|
  {
    if |results| == 0 then NoResults(NoResultsError)
    else
      var successes := Filter(results, Success);
      var errors := Filter(results, Error);
      var warnings := Filter(results, Warning);
      if |successes| > 0 then
        var latencies := Latencies(successes);
        var summary := Summary(|results|, |successes|, |errors|, |warnings|,
                               |successes| as real / |results| as real * 100.0);
        var stats := LatencyStats(MinOf(latencies), MaxOf(latencies), Mean(latencies), SampleVariance(latencies));
        var analysis := ThresholdAnalysis(threshold, CountBelow(latencies, threshold * 100),
                                          CountAtOrAbove(latencies, threshold * 100));
        WithLatencies(summary, stats, analysis, results)
      else
        NoSuccesses(Summary(|results|, 0, |errors|, |warnings|, 0.0), NoSuccessesError, results)
  }

  // ---------------------------------------------------------------------------
  // Properties of the report

  /** Below and at-or-above the threshold split the latencies. */
  lemma {:induction false} ThresholdSplit(xs: seq<int>, threshold: int)
    ensures CountBelow(xs, threshold) + CountAtOrAbove(xs, threshold) == |xs|
  {
    if |xs| > 0 {
      ThresholdSplit(xs[1..], threshold);
    }
  }

  /** The mean lies between the minimum and the maximum. */
  lemma {:induction false} MeanBetween(xs: seq<int>)
    requires |xs| > 0
    ensures MinOf(xs) as real <= Mean(xs) <= MaxOf(xs) as real
  {
    MeanWithin(xs, MinOf(xs), MaxOf(xs));
  }

  /** The mean of values within [lo, hi] is within [lo, hi]. */
  lemma {:induction false} MeanWithin(xs: seq<int>, lo: int, hi: int)
    requires |xs| > 0
    requires forall k :: 0 <= k < |xs| ==> lo <= xs[k] <= hi
    ensures lo as real <= Mean(xs) <= hi as real
  {
    SumBounds(xs, lo, hi);
    MulAsReal(|xs|, lo);
    MulAsReal(|xs|, hi);
    DivBounds(Sum(xs) as real, |xs| as real, lo as real, hi as real);
  }

  lemma MulAsReal(a: int, b: int)
    ensures (a * b) as real == a as real * b as real
  {
  }

  lemma DivBounds(total: real, n: real, lo: real, hi: real)
    requires n > 0.0 && n * lo <= total <= n * hi
    ensures lo <= total / n <= hi
  {
    assert total / n - lo == (total - n * lo) / n;
    assert hi - total / n == (n * hi - total) / n;
  }

  /** The report summarises the results: the counts are the status filters
      and add up to the total; with successes, min <= mean <= max, the
      threshold split adds up to the successes, and the spread is zero for a
      single success; without successes, zero successes and a 0.0 rate. */
  lemma {:induction false} ReportFacts(results: seq<TestResult>, threshold: int)
    ensures |results| > 0 ==>
              var rep := GenerateReport(results, threshold);
              && rep.summary.errors == |Filter(results, Error)|
              && rep.summary.warnings == |Filter(results, Warning)|
              && rep.summary.successful == |Filter(results, Success)|
              && rep.summary.successful + rep.summary.errors + rep.summary.warnings == rep.summary.total
              && (rep.WithLatencies? <==> |Filter(results, Success)| > 0)
              && (rep.NoSuccesses? ==> rep.summary.successful == 0 && rep.summary.successRate == 0.0)
    ensures |Filter(results, Success)| > 0 ==>
              var rep := GenerateReport(results, threshold);
              && rep.WithLatencies?
              && rep.analysis.below + rep.analysis.above == rep.summary.successful
              && rep.stats.minMs as real <= rep.stats.meanMs <= rep.stats.maxMs as real
              && (rep.summary.successful == 1 ==> rep.stats.variance == 0.0 && rep.stats.minMs == rep.stats.maxMs)
  {
    FilterPartition(results);
    var successes := Filter(results, Success);
    if |successes| > 0 {
      var latencies := Latencies(successes);
      ThresholdSplit(latencies, threshold * 100);
      MeanBetween(latencies);
    }
  }

  // ---------------------------------------------------------------------------
  // Status versus the threshold split

  /** The status uses the unrounded latency and the split the rounded one, so
      a success can be counted at or above the threshold: 9999.996 ms against
      a 10000 ms threshold is a success stored as 10000.00 ms. */
  lemma RoundedSuccessCountedAbove()
    ensures RunBatch(1, 10000, [Completed(9999996)]) == [TestResult(1, 1000000, Success, None)]
    ensures GenerateReport(RunBatch(1, 10000, [Completed(9999996)]), 10000).analysis.above == 1
  {
    var results := RunBatch(1, 10000, [Completed(9999996)]);
    assert results == [TestResult(1, 1000000, Success, None)];
    assert Filter(results, Success) == results;
  }

  /** A success is stored at most at the threshold: rounding can lift it onto
      the threshold but not past it. */
  lemma {:induction false} SuccessNotPastThreshold(testCount: int, threshold: int, attempts: seq<Attempt>)
    requires testCount <= |attempts|
    ensures var results := RunBatch(testCount, threshold, attempts);
            forall k :: 0 <= k < |results| && results[k].status == Success ==> results[k].latencyCs <= threshold * 100
  {
    var results := RunBatch(testCount, threshold, attempts);
    var prefix := attempts[..Max(testCount, 0)];
    forall k | 0 <= k < |results| && results[k].status == Success
      ensures results[k].latencyCs <= threshold * 100
    {
      assert results[k] == ResultFor(1 + k, prefix[k], threshold);
      assert prefix[k].Completed?;
      assert prefix[k].latencyUs < threshold * 1000;
    }
  }

  /** So the successes counted at or above the threshold are exactly those
      stored at the threshold itself. */
  lemma {:induction false} AboveOnlyAtThreshold(testCount: int, threshold: int, attempts: seq<Attempt>)
    requires testCount <= |attempts|
    requires |Filter(RunBatch(testCount, threshold, attempts), Success)| > 0
    ensures var successes := Filter(RunBatch(testCount, threshold, attempts), Success);
            GenerateReport(RunBatch(testCount, threshold, attempts), threshold).analysis.above
              == CountEqual(Latencies(successes), threshold * 100)
  {
    var results := RunBatch(testCount, threshold, attempts);
    var successes := Filter(results, Success);
    SuccessNotPastThreshold(testCount, threshold, attempts);
    forall k | 0 <= k < |successes|
      ensures Latencies(successes)[k] <= threshold * 100
    {
      assert successes[k] in results;
    }
    AtOrAboveIsEqual(Latencies(successes), threshold * 100);
  }

  lemma {:induction false} AtOrAboveIsEqual(xs: seq<int>, bound: int)
    requires forall k :: 0 <= k < |xs| ==> xs[k] <= bound
    ensures CountAtOrAbove(xs, bound) == CountEqual(xs, bound)
  {
    if |xs| > 0 {
      AtOrAboveIsEqual(xs[1..], bound);
    }
  }
}
