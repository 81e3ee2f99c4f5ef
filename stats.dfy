/**
 * Request statistics gathered during a scan: counters, byte total, fastest/slowest response and a
 * running "average" response time. Durations are nanoseconds.
 */
module Stats {
  /** `Duration::MAX`: u64::MAX seconds and 999 999 999 nanoseconds. */
  const DurationMax: nat := 18_446_744_073_709_551_615_999_999_999
  const U32Limit: nat := 0x1_0000_0000

  /** Product of naturals, kept behind a name so that products stay opaque to arithmetic. */
  function Mul(a: nat, b: nat): nat {
    a * b
  }

  /**
   * One step of a running mean: the mean `avg` of k times, extended by `rt`, becomes
   * `(avg * k + rt) / (k + 1)`, truncated to whole nanoseconds the way `Duration / u32` is.
   */
  function MeanStep(avg: nat, k: nat, rt: nat): nat {
    (Mul(avg, k) + rt) / (k + 1)
  }

  function Sum(xs: seq<nat>): nat {
    if xs == [] then 0 else Sum(xs[..|xs| - 1]) + xs[|xs| - 1]
  }

  /**
   * The average `record_request` keeps as written: the step is given the request count after
   * its increment, so the previous average is weighted as if there had been one more request.
   */
  function AverageAsWritten(times: seq<nat>): nat {
    if times == [] then 0
    else MeanStep(AverageAsWritten(times[..|times| - 1]), |times|, times[|times| - 1])
  }

  /** The running mean of the recorded times, each step weighting the previous mean by the count before it. */
  function RunningMean(times: seq<nat>): nat {
    if times == [] then 0
    else MeanStep(RunningMean(times[..|times| - 1]), |times| - 1, times[|times| - 1])
  }

  /** Dividing a multiple by its factor gives the other factor back. */
  lemma MulDiv(t: nat, m: nat)
    requires m > 0
    ensures Mul(t, m) / m == t
  {
    var q, r := Mul(t, m) / m, Mul(t, m) % m;
    assert Mul(q, m) + r == Mul(t, m);
    if q < t {
      MulLess(q, t, m);
    } else if t < q {
      MulLess(t, q, m);
    }
  }

  /** A smaller factor gives a product smaller by at least the other factor. */
  lemma MulLess(a: nat, b: nat, m: nat)
    requires a < b
    ensures Mul(a, m) + m <= Mul(b, m)
  {
    var d: nat := b - a - 1;
    calc {
      Mul(b, m);
      (a + 1 + d) * m;
      a * m + m + d * m;
    }
  }

  /** A step never overestimates: the new mean times the new count is at most the old total plus `rt`. */
  lemma MeanStepBelow(avg: nat, k: nat, rt: nat)
    ensures Mul(MeanStep(avg, k, rt), k + 1) <= Mul(avg, k) + rt
  {
    var x := Mul(avg, k) + rt;
    assert Mul(x / (k + 1), k + 1) == (x / (k + 1)) * (k + 1);
  }

  /**
   * The average as written always underestimates: weighted by one more than the number of
   * recorded times it is still at most their sum, so it lies below the true mean.
   */
  lemma {:induction false} AverageAsWrittenBelowSum(times: seq<nat>)
    ensures Mul(AverageAsWritten(times), |times| + 1) <= Sum(times)
  {
    if times != [] {
      var p := times[..|times| - 1];
      AverageAsWrittenBelowSum(p);
      MeanStepBelow(AverageAsWritten(p), |times|, times[|times| - 1]);
    }
  }

  /** The running mean never exceeds the exact mean: mean times count is at most the sum. */
  lemma {:induction false} RunningMeanBelowSum(times: seq<nat>)
    ensures Mul(RunningMean(times), |times|) <= Sum(times)
  {
    if times != [] {
      var p := times[..|times| - 1];
      RunningMeanBelowSum(p);
      MeanStepBelow(RunningMean(p), |p|, times[|times| - 1]);
    }
  }

  /** When every recorded time is t, the running mean is exactly t. */
  lemma {:induction false} RunningMeanConstant(times: seq<nat>, t: nat)
    requires times != [] && forall i | 0 <= i < |times| :: times[i] == t
    ensures RunningMean(times) == t
  {
    var p := times[..|times| - 1];
    if p == [] {
      assert Mul(RunningMean(p), 0) == 0;
    } else {
      RunningMeanConstant(p, t);
      assert Mul(t, |p|) + t == Mul(t, |p| + 1);
      MulDiv(t, |p| + 1);
    }
  }

  /**
   * As written, a single 100 ms request records a 50 ms average, where the running mean is
   * 100 ms; the three requests of the statistics test end at 87.5 ms instead of 116.67 ms.
   */
  lemma AverageAsWrittenHalves()
    ensures AverageAsWritten([100_000_000]) == 50_000_000
    ensures RunningMean([100_000_000]) == 100_000_000
    ensures AverageAsWritten([100_000_000, 200_000_000, 50_000_000]) == 87_500_000
    ensures RunningMean([100_000_000, 200_000_000, 50_000_000]) == 116_666_666
  {
    var ts := [100_000_000, 200_000_000, 50_000_000];
    assert ts[..2] == [100_000_000, 200_000_000] && ts[..2][..1] == [100_000_000];
    assert [100_000_000][..0] == [];
  }

  function Min(xs: seq<nat>): nat
    requires |xs| > 0
  {
    if |xs| == 1 then xs[0]
    else var m := Min(xs[..|xs| - 1]); if xs[|xs| - 1] < m then xs[|xs| - 1] else m
  }

  function Max(xs: seq<nat>): nat
    requires |xs| > 0
  {
    if |xs| == 1 then xs[0]
    else var m := Max(xs[..|xs| - 1]); if xs[|xs| - 1] > m then xs[|xs| - 1] else m
  }


  /** Appending a value updates minimum, maximum and sum the way `record_request` updates its fields. */
  lemma AppendStep(xs: seq<nat>, x: nat)
    ensures Sum(xs + [x]) == Sum(xs) + x
    ensures xs == [] ==> Min(xs + [x]) == x == Max(xs + [x])
    ensures xs != [] ==> Min(xs + [x]) == (if x < Min(xs) then x else Min(xs))
    ensures xs != [] ==> Max(xs + [x]) == (if x > Max(xs) then x else Max(xs))
  {
    assert (xs + [x])[..|xs|] == xs;
  }

  /** The minimum is at most the maximum, and both are among the values. */
  lemma {:induction false} MinMax(xs: seq<nat>)
    requires |xs| > 0
    ensures Min(xs) <= Max(xs)
    ensures Min(xs) in xs && Max(xs) in xs
    ensures forall i | 0 <= i < |xs| :: Min(xs) <= xs[i] <= Max(xs)
  {
    if |xs| > 1 {
      MinMax(xs[..|xs| - 1]);
      assert xs == xs[..|xs| - 1] + [xs[|xs| - 1]];
    }
  }

  /** Fastest and slowest are the extremes of the recorded times: Duration::MAX and zero before any. */
  ghost predicate Extremes(times: seq<nat>, fastest: nat, slowest: nat) {
    (times == [] ==> fastest == DurationMax && slowest == 0)
    && (times != [] ==> fastest == Min(times) && slowest == Max(times))
  }

  /** Comparing a new time with the current extremes keeps them the extremes of the longer record. */
  lemma ExtremesAppend(times: seq<nat>, fastest: nat, slowest: nat, rt: nat)
    requires Extremes(times, fastest, slowest) && rt < DurationMax
    ensures Extremes(times + [rt], if rt < fastest then rt else fastest, if rt > slowest then rt else slowest)
    ensures (if rt < fastest then rt else fastest) <= rt <= (if rt > slowest then rt else slowest)
  {
    AppendStep(times, rt);
  }

  /**
   * Every request counts once, as a success or as a failure; the byte total is the sum of the
   * recorded sizes; fastest and slowest are the extremes of the recorded times.
   */
  ghost predicate Consistent(total: nat, succeeded: nat, failed: nat, bytes: nat,
    fastest: nat, slowest: nat, times: seq<nat>, sizes: seq<nat>)
  {
    total == succeeded + failed == |times| == |sizes|
    && bytes == Sum(sizes)
    && Extremes(times, fastest, slowest)
  }

  /** One more request, counted, summed and compared the way `record_request` does, keeps the counters consistent. */
  lemma ConsistentStep(total: nat, succeeded: nat, failed: nat, bytes: nat,
    fastest: nat, slowest: nat, times: seq<nat>, sizes: seq<nat>,
    success: bool, rt: nat, b: nat)
    requires Consistent(total, succeeded, failed, bytes, fastest, slowest, times, sizes)
    requires rt < DurationMax
    ensures Consistent(total + 1,
      if success then succeeded + 1 else succeeded, if success then failed else failed + 1,
      bytes + b, if rt < fastest then rt else fastest, if rt > slowest then rt else slowest,
      times + [rt], sizes + [b])
    ensures (if rt < fastest then rt else fastest) <= rt <= (if rt > slowest then rt else slowest)
  {
    ExtremesAppend(times, fastest, slowest, rt);
    AppendStep(sizes, b);
  }

  /** `part / whole * 100` on exact reals, and 0 for an empty whole. */
  function Percent(part: nat, whole: nat): (p: real)
    ensures whole == 0 ==> p == 0.0
    ensures whole > 0 ==> p * whole as real == part as real * 100.0
    ensures p >= 0.0 && (p == 0.0 <==> whole == 0 || part == 0)
    ensures part <= whole ==> p <= 100.0 && (whole > 0 ==> (p == 100.0 <==> part == whole))
  {
    if whole == 0 then 0.0 else part as real / whole as real * 100.0
  }

  class ScanStatistics {
    var totalRequests: nat
    var successfulRequests: nat
    var failedRequests: nat
    var totalBytesTransferred: nat
    var averageResponseTime: nat
    var fastestResponse: nat
    var slowestResponse: nat
    var endpointsDiscovered: nat
    var vulnerabilitiesFound: nat
    var vulnerabilitiesByType: map<string, nat>
    var vulnerabilitiesBySeverity: map<string, nat>
    var falsePositivesFiltered: nat
    var scanDuration: nat
    /** Every recorded response time and byte count, in order. */
    ghost var times: seq<nat>
    ghost var sizes: seq<nat>

    /**
     * Every request counts once, as a success or as a failure; the byte total is the sum of the
     * recorded sizes; fastest and slowest are the extremes of the recorded times (Duration::MAX
     * and zero before any).
     */
    ghost predicate Valid()
      reads this
    {
      Consistent(totalRequests, successfulRequests, failedRequests, totalBytesTransferred,
        fastestResponse, slowestResponse, times, sizes)
      && averageResponseTime == AverageAsWritten(times)
    }

    /** `ScanStatistics::new`. */
    constructor ()
      ensures Valid() && times == []
      ensures totalRequests == 0 && averageResponseTime == 0 && endpointsDiscovered == 0
      ensures vulnerabilitiesFound == 0 && falsePositivesFiltered == 0 && scanDuration == 0
      ensures vulnerabilitiesByType == map[] && vulnerabilitiesBySeverity == map[]
    {
      totalRequests := 0;
      successfulRequests := 0;
      failedRequests := 0;
      totalBytesTransferred := 0;
      averageResponseTime := 0;
      fastestResponse := DurationMax;
      slowestResponse := 0;
      endpointsDiscovered := 0;
      vulnerabilitiesFound := 0;
      vulnerabilitiesByType := map[];
      vulnerabilitiesBySeverity := map[];
      falsePositivesFiltered := 0;
      scanDuration := 0;
      times := [];
      sizes := [];
    }

    /**
     * `record_request`: the count is incremented first, and the average step then weights the
     * old average by that incremented count and divides by one more, as the source does
     * (`RunningMean` is the corrected update).
     */
    method RecordRequest(success: bool, responseTime: nat, bytes: nat)
      requires Valid() && totalRequests + 2 < U32Limit && responseTime < DurationMax
      modifies this
      ensures Valid()
      ensures times == old(times) + [responseTime] && sizes == old(sizes) + [bytes]
      ensures totalRequests == old(totalRequests) + 1
      ensures success ==> successfulRequests == old(successfulRequests) + 1 && failedRequests == old(failedRequests)
      ensures !success ==> failedRequests == old(failedRequests) + 1 && successfulRequests == old(successfulRequests)
      ensures totalBytesTransferred == old(totalBytesTransferred) + bytes
      ensures fastestResponse <= responseTime <= slowestResponse
      ensures averageResponseTime == MeanStep(old(averageResponseTime), old(totalRequests) + 1, responseTime)
      ensures Mul(averageResponseTime, totalRequests + 1) <= Sum(times)
      ensures endpointsDiscovered == old(endpointsDiscovered) && vulnerabilitiesFound == old(vulnerabilitiesFound)
    {
      var n := totalRequests + 1;
      var fastest := if responseTime < fastestResponse then responseTime else fastestResponse;
      var slowest := if responseTime > slowestResponse then responseTime else slowestResponse;
      ConsistentStep(totalRequests, successfulRequests, failedRequests, totalBytesTransferred,
        fastestResponse, slowestResponse, times, sizes, success, responseTime, bytes);
      var succeeded := if success then successfulRequests + 1 else successfulRequests;
      var failed := if success then failedRequests else failedRequests + 1;
      totalRequests, successfulRequests, failedRequests := n, succeeded, failed;
      totalBytesTransferred := totalBytesTransferred + bytes;
      fastestResponse, slowestResponse := fastest, slowest;
      averageResponseTime := MeanStep(averageResponseTime, n, responseTime);
      times, sizes := times + [responseTime], sizes + [bytes];
      assert times[..|times| - 1] == old(times);
      AverageAsWrittenBelowSum(times);
    }

    /** `calculate_throughput`: records the scan duration (the requests-per-second float is not modelled). */
    method CalculateThroughput(scanTime: nat)
      requires Valid()
      modifies this
      ensures Valid() && scanDuration == scanTime
      ensures totalRequests == old(totalRequests) && times == old(times) && sizes == old(sizes)
    {
      scanDuration := scanTime;
    }

    /** `success_rate` on exact reals: a percentage, 0 before any request. */
    function SuccessRate(): (rate: real)
      requires Valid()
      reads this
      ensures 0.0 <= rate <= 100.0
      ensures totalRequests == 0 ==> rate == 0.0
      ensures totalRequests > 0 ==> (rate == 100.0 <==> failedRequests == 0)
    {
      Percent(successfulRequests, totalRequests)
    }

    /** `efficiency_score` on exact reals: vulnerabilities per hundred requests, 0 before any request. */
    function EfficiencyScore(): (score: real)
      reads this
      ensures score >= 0.0
      ensures totalRequests == 0 ==> score == 0.0
      ensures totalRequests > 0 ==> (score == 0.0 <==> vulnerabilitiesFound == 0)
    {
      Percent(vulnerabilitiesFound, totalRequests)
    }

    /** `average_bytes_per_request`: integer division, 0 before any request. */
    function AverageBytesPerRequest(): (avg: nat)
      reads this
      ensures totalRequests == 0 ==> avg == 0
      ensures totalRequests > 0 ==>
        avg * totalRequests <= totalBytesTransferred < (avg + 1) * totalRequests
    {
      if totalRequests == 0 then 0 else totalBytesTransferred / totalRequests
    }
  }

  /**
   * The source's statistics test: 100 ms and 200 ms successes and a 50 ms failure leave 3
   * requests, 2 successes and 1 failure (a success rate of 200/3 percent), and 3584 bytes; the
   * average as written steps through 50 ms and 100 ms and ends at 87.5 ms, below the true mean
   * of 116.67 ms.
   */
  method ThreeRequests() returns (total: nat, succeeded: nat, failed: nat, bytes: nat, average: nat, rate: real)
    ensures total == 3 && succeeded == 2 && failed == 1 && bytes == 3584
    ensures average == 87_500_000
    ensures average * 4 <= 100_000_000 + 200_000_000 + 50_000_000
    ensures rate * 3.0 == 200.0
  {
    var s := new ScanStatistics();
    s.RecordRequest(true, 100_000_000, 1024);
    s.RecordRequest(true, 200_000_000, 2048);
    s.RecordRequest(false, 50_000_000, 512);
    total, succeeded, failed, bytes := s.totalRequests, s.successfulRequests, s.failedRequests, s.totalBytesTransferred;
    average := s.averageResponseTime;
    rate := s.SuccessRate();
  }
}
