/** The autoscaler (services/autoscaling.py): a latency quantile read off a histogram, a policy that moves
    one step per tick, and a loop with a cooldown. */
module Autoscaling {
  import opened Common
  import opened Models
  import PlacementRuns
  import Scheduler
  import opened Scaling
  import Sets
  import Sorting

  // ---- The 95th percentile of a histogram with cumulative counts ----

  /** The first bucket whose cumulative count reaches the target; the length when none does. */
  function Reach(counts: seq<real>, target: real): (i: nat)
    ensures i <= |counts|
    ensures i < |counts| ==> counts[i] >= target
    ensures forall j :: 0 <= j < i ==> counts[j] < target
  {
    if counts == [] || counts[0] >= target then 0 else 1 + Reach(counts[1..], target)
  }

  lemma ReachIs(counts: seq<real>, target: real, i: nat)
    requires i <= |counts| && (i < |counts| ==> counts[i] >= target)
    requires forall j :: 0 <= j < i ==> counts[j] < target
    ensures Reach(counts, target) == i
  {
  }

  /** The bound, or count, before bucket i. */
  function Before(values: seq<real>, i: nat): real
    requires i <= |values|
  {
    if i == 0 then 0.0 else values[i - 1]
  }

  function Estimate(bounds: seq<real>, counts: seq<real>, i: nat, target: real): real
    requires i < |bounds| && i < |counts|
  {
    if counts[i] == Before(counts, i) then bounds[i]
    else Interpolate(Before(bounds, i), bounds[i], target - Before(counts, i), counts[i] - Before(counts, i))
  }

  /** As far between two bounds as `part` is into `whole`. */
  function Interpolate(low: real, high: real, part: real, whole: real): real
    requires whole != 0.0
  {
    low + (high - low) * (part / whole)
  }

  /** The estimate in the bucket that is reached, or the last bound. */
  function Quantile(bounds: seq<real>, counts: seq<real>, total: real): real
    requires bounds != []
  {
    var n := Min(|bounds|, |counts|);
    var i := Reach(counts[..n], 0.95 * total);
    if i < n then Estimate(bounds, counts, i, 0.95 * total) else bounds[|bounds| - 1]
  }

  lemma QuantileAt(bounds: seq<real>, counts: seq<real>, total: real, i: nat)
    requires var n := Min(|bounds|, |counts|); bounds != [] && i <= n && (i < n ==> counts[i] >= 0.95 * total)
    requires forall j :: 0 <= j < i ==> counts[j] < 0.95 * total
    ensures Quantile(bounds, counts, total)
            == if i < Min(|bounds|, |counts|) then Estimate(bounds, counts, i, 0.95 * total) else bounds[|bounds| - 1]
  {
    ReachIs(counts[..Min(|bounds|, |counts|)], 0.95 * total, i);
  }

  /** What the server reports, in milliseconds. It has no answer for observations without buckets. */
  function ServerP95(buckets: seq<real>, counts: seq<real>): Option<real>
    requires counts != [] && counts[|counts| - 1] > 0.0 ==> buckets != []
  {
    if counts == [] || counts[|counts| - 1] <= 0.0 then None
    else Some(Quantile(buckets, counts, counts[|counts| - 1]) * 1000.0)
  }

  /** The server's hist_p95. */
  method HistP95(buckets: seq<real>, counts: seq<real>) returns (p95: Option<real>)
    requires counts != [] && counts[|counts| - 1] > 0.0 ==> buckets != []
    ensures p95 == ServerP95(buckets, counts)
  {
    if counts == [] || counts[|counts| - 1] <= 0.0 {
      return None;
    }
    var total := counts[|counts| - 1];
    var target := 0.95 * total;
    var previousBound, previousCount := 0.0, 0.0;
    var n := Min(|buckets|, |counts|);
    for i := 0 to n
      invariant previousBound == Before(buckets, i) && previousCount == Before(counts, i)
      invariant forall j :: 0 <= j < i ==> counts[j] < target
    {
      var bound, count := buckets[i], counts[i];
      if count >= target {
        QuantileAt(buckets, counts, total, i);
        if count == previousCount {
          return Some(bound * 1000.0);
        }
        var span := count - previousCount;
        var value := Interpolate(previousBound, bound, target - previousCount, span);
        return Some(value * 1000.0);
      }
      previousBound, previousCount := bound, count;
    }
    QuantileAt(buckets, counts, total, n);
    return Some(buckets[|buckets| - 1] * 1000.0);
  }

  function Reals(counts: seq<int>): (r: seq<real>)
    ensures |r| == |counts|
  {
    seq(|counts|, i requires 0 <= i < |counts| => counts[i] as real)
  }

  /** What the bench reports, in seconds: it pairs bounds with counts first, and takes the total from the
      pairs. */
  function BenchP95(buckets: seq<real>, counts: seq<int>): Option<real> {
    var n := Min(|buckets|, |counts|);
    if n == 0 || counts[n - 1] <= 0 then None
    else Some(Quantile(buckets[..n], Reals(counts)[..n], counts[n - 1] as real))
  }

  /** The bench copy of hist_p95. */
  method BenchHistP95(buckets: seq<real>, counts: seq<int>) returns (p95: Option<real>)
    ensures p95 == BenchP95(buckets, counts)
  {
    var n := Min(|buckets|, |counts|);
    if n == 0 || counts[n - 1] <= 0 {
      return None;
    }
    var total := counts[n - 1];
    var target := 0.95 * total as real;
    ghost var bounds, reals := buckets[..n], Reals(counts)[..n];
    var previousBound, previousCount := 0.0, 0;
    // What is returned when no bucket reaches the target.
    p95 := Some(buckets[n - 1]);
    var i := 0;
    while i < n
      invariant i <= n && previousBound == Before(bounds, i) && previousCount as real == Before(reals, i)
      invariant forall j :: 0 <= j < i ==> reals[j] < target
      invariant p95 == Some(buckets[n - 1])
    {
      var bound, count := buckets[i], counts[i];
      assert bounds[i] == bound && reals[i] == count as real;
      if count as real >= target {
        var span := count - previousCount;
        p95 := Some(if count == previousCount then bound
                    else Interpolate(previousBound, bound, target - previousCount as real, span as real));
        break;
      }
      previousBound, previousCount := bound, count;
      i := i + 1;
    }
    QuantileAt(bounds, reals, total as real, i);
  }

  ghost predicate Increasing(bounds: seq<real>) {
    && (forall i :: 0 <= i < |bounds| ==> bounds[i] > 0.0)
    && (forall i, j :: 0 <= i < j < |bounds| ==> bounds[i] < bounds[j])
  }

  /** Some bucket reaches the target, and its count is above the one before: with a positive total neither
      the equal-counts return nor the one after the loop is ever taken. Counts need not even be cumulative. */
  lemma OneBucketReaches(counts: seq<real>, total: real)
    requires counts != [] && counts[|counts| - 1] == total > 0.0
    ensures var i := Reach(counts, 0.95 * total);
            i < |counts| && Before(counts, i) < 0.95 * total <= counts[i]
  {
    var i := Reach(counts, 0.95 * total);
    assert counts[|counts| - 1] >= 0.95 * total;
  }

  lemma Times(a: real, b: real, c: real)
    requires a < b && c > 0.0
    ensures a * c < b * c
  {
    assert (b - a) * c > 0.0;
  }

  lemma Proper(part: real, whole: real)
    requires 0.0 < part <= whole
    ensures 0.0 < part / whole <= 1.0
  {
    var f := part / whole;
    assert f * whole == part;
    if f > 1.0 {
      Times(1.0, f, whole);
    }
    if f < 0.0 {
      Times(f, 0.0, whole);
    }
  }

  /** A proper part of a whole interpolates into the span, above its lower end. */
  lemma Within(low: real, high: real, part: real, whole: real)
    requires low < high && 0.0 < part <= whole
    ensures low < Interpolate(low, high, part, whole) <= high
  {
    var f, span := part / whole, high - low;
    Proper(part, whole);
    Times(0.0, f, span);
    if f < 1.0 {
      Times(f, 1.0, span);
    }
    assert span * f == f * span;
  }

  /** A larger fraction interpolates further. */
  lemma Further(low: real, high: real, part: real, whole: real, part': real, whole': real)
    requires low < high && whole > 0.0 && whole' > 0.0 && part / whole <= part' / whole'
    ensures Interpolate(low, high, part, whole) <= Interpolate(low, high, part', whole')
  {
    var f, g, span := part / whole, part' / whole', high - low;
    if f < g {
      Times(f, g, span);
    }
    assert span * f == f * span && span * g == g * span;
  }

  /** Bucket i is where the cumulative count first reaches the target, and holds the estimate. */
  ghost predicate InBucket(bounds: seq<real>, counts: seq<real>, i: nat, target: real) {
    && i < |bounds| == |counts|
    && Before(counts, i) < target <= counts[i]
    && Before(bounds, i) < Estimate(bounds, counts, i, target) <= bounds[i]
  }

  lemma EstimateInBucket(bounds: seq<real>, counts: seq<real>, i: nat, target: real)
    requires i < |bounds| == |counts| && Before(counts, i) < target <= counts[i] && Before(bounds, i) < bounds[i]
    ensures InBucket(bounds, counts, i, target)
  {
    Within(Before(bounds, i), bounds[i], target - Before(counts, i), counts[i] - Before(counts, i));
  }

  /** The quantile lies in the bucket where the cumulative count first reaches 95 % of the total. */
  lemma QuantileInBucket(bounds: seq<real>, counts: seq<real>, total: real)
    requires Increasing(bounds) && |bounds| == |counts| > 0 && counts[|counts| - 1] == total > 0.0
    ensures var i := Reach(counts, 0.95 * total);
            && InBucket(bounds, counts, i, 0.95 * total)
            && Quantile(bounds, counts, total) == Estimate(bounds, counts, i, 0.95 * total)
  {
    OneBucketReaches(counts, total);
    var i := Reach(counts, 0.95 * total);
    EstimateInBucket(bounds, counts, i, 0.95 * total);
    QuantileAt(bounds, counts, total, i);
  }

  /** x is as far from low towards high as the part is into the whole. */
  ghost predicate OnLine(x: real, low: real, high: real, part: real, whole: real) {
    (x - low) * whole == (high - low) * part
  }

  lemma Proportion(low: real, high: real, part: real, whole: real)
    requires whole > 0.0
    ensures OnLine(Interpolate(low, high, part, whole), low, high, part, whole)
  {
    var f, span := part / whole, high - low;
    assert f * whole == part;
    Regroup(span, f, whole);
  }

  lemma Regroup(a: real, b: real, c: real)
    ensures (a * b) * c == a * (b * c)
  {
  }

  /** As far into the bucket that first reaches 95 % of the total as 95 % is into that bucket's observations. */
  lemma QuantileIsLinear(bounds: seq<real>, counts: seq<real>, total: real) returns (i: nat)
    requires Increasing(bounds) && |bounds| == |counts| > 0 && counts[|counts| - 1] == total > 0.0
    ensures i < |counts| && counts[i] >= 0.95 * total && forall j :: 0 <= j < i ==> counts[j] < 0.95 * total
    ensures OnLine(Quantile(bounds, counts, total), Before(bounds, i), bounds[i], 0.95 * total - Before(counts, i),
                   counts[i] - Before(counts, i))
  {
    QuantileInBucket(bounds, counts, total);
    i := Reach(counts, 0.95 * total);
    EstimateOnLine(bounds, counts, i, 0.95 * total);
  }

  lemma EstimateOnLine(bounds: seq<real>, counts: seq<real>, i: nat, target: real)
    requires i < |bounds| == |counts| && Before(counts, i) < counts[i]
    ensures OnLine(Estimate(bounds, counts, i, target), Before(bounds, i), bounds[i], target - Before(counts, i),
                   counts[i] - Before(counts, i))
  {
    Proportion(Before(bounds, i), bounds[i], target - Before(counts, i), counts[i] - Before(counts, i));
  }

  lemma Quotient(part: real, whole: real, f: real)
    requires whole > 0.0 && part <= f * whole
    ensures part / whole <= f
  {
    var g := part / whole;
    assert g * whole == part;
    if g > f {
      Times(f, g, whole);
    }
  }

  /** More weight below, and a larger count, only lower the fraction. */
  lemma FractionFalls(t: real, p1: real, c1: real, p2: real, c2: real)
    requires p1 <= p2 < t <= c1 <= c2
    ensures (t - p2) / (c2 - p2) <= (t - p1) / (c1 - p1)
  {
    var f := (t - p1) / (c1 - p1);
    Proper(t - p1, c1 - p1);
    assert f * (c1 - p1) == t - p1;
    Product(1.0 - f, p2 - p1);
    Product(f, c2 - c1);
    assert f * (c2 - p2) == f * (c1 - p1) + f * (c2 - c1) - f * (p2 - p1);
    Quotient(t - p2, c2 - p2, f);
  }

  /** In one bucket, more weight below and a larger count give a smaller estimate. */
  lemma SameBucket(low: real, high: real, t: real, p1: real, c1: real, p2: real, c2: real)
    requires low < high && p1 <= p2 < t <= c1 <= c2
    ensures Interpolate(low, high, t - p2, c2 - p2) <= Interpolate(low, high, t - p1, c1 - p1)
  {
    FractionFalls(t, p1, c1, p2, c2);
    Further(low, high, t - p2, c2 - p2, t - p1, c1 - p1);
  }

  lemma Product(a: real, b: real)
    requires a >= 0.0 && b >= 0.0
    ensures a * b >= 0.0
  {
  }

  /** Larger counts reach the target no later. */
  lemma ReachEarlier(slower: seq<real>, faster: seq<real>, target: real)
    requires |slower| == |faster| && forall i :: 0 <= i < |slower| ==> slower[i] <= faster[i]
    ensures Reach(faster, target) <= Reach(slower, target)
  {
    var j := Reach(slower, target);
    assert j < |slower| ==> faster[j] >= slower[j];
  }

  lemma BoundsBetween(bounds: seq<real>, i: nat, j: nat)
    requires Increasing(bounds) && i < j < |bounds|
    ensures bounds[i] <= Before(bounds, j)
  {
  }

  lemma Below(counts: seq<real>, others: seq<real>, i: nat)
    requires i <= |counts| == |others| && forall i :: 0 <= i < |counts| ==> counts[i] <= others[i]
    ensures Before(counts, i) <= Before(others, i) && (i < |counts| ==> counts[i] <= others[i])
  {
  }

  /** Pointwise larger cumulative counts with the same total never give a larger quantile. */
  lemma QuantileMonotone(bounds: seq<real>, slower: seq<real>, faster: seq<real>, total: real)
    requires Increasing(bounds) && |bounds| == |slower| == |faster| > 0
    requires forall i :: 0 <= i < |slower| ==> slower[i] <= faster[i]
    requires slower[|slower| - 1] == total && faster[|faster| - 1] == total > 0.0
    ensures Quantile(bounds, faster, total) <= Quantile(bounds, slower, total)
  {
    var target := 0.95 * total;
    var i, j := Reach(faster, target), Reach(slower, target);
    QuantileInBucket(bounds, slower, total);
    QuantileInBucket(bounds, faster, total);
    ReachEarlier(slower, faster, target);
    Below(slower, faster, i);
    EstimatesOrdered(bounds, slower, faster, i, j, target);
  }

  lemma EstimatesOrdered(bounds: seq<real>, slower: seq<real>, faster: seq<real>, i: nat, j: nat, target: real)
    requires Increasing(bounds) && InBucket(bounds, faster, i, target) && InBucket(bounds, slower, j, target)
    requires i <= j && Before(slower, i) <= Before(faster, i) && slower[i] <= faster[i]
    ensures Estimate(bounds, faster, i, target) <= Estimate(bounds, slower, j, target)
  {
    if i < j {
      BoundsBetween(bounds, i, j);
    } else {
      EstimateFalls(bounds, slower, faster, i, target);
    }
  }

  lemma EstimateFalls(bounds: seq<real>, slower: seq<real>, faster: seq<real>, i: nat, target: real)
    requires i < |bounds| == |slower| == |faster| && Before(bounds, i) < bounds[i]
    requires Before(slower, i) <= Before(faster, i) < target <= slower[i] <= faster[i]
    ensures Estimate(bounds, faster, i, target) <= Estimate(bounds, slower, i, target)
  {
    SameBucket(Before(bounds, i), bounds[i], target, Before(slower, i), slower[i], Before(faster, i), faster[i]);
  }

  /** In one bucket, a larger target gives a larger estimate. */
  lemma EstimateRises(bounds: seq<real>, counts: seq<real>, i: nat, target: real, larger: real)
    requires i < |bounds| == |counts| && Before(bounds, i) < bounds[i]
    requires Before(counts, i) < target < larger <= counts[i]
    ensures Estimate(bounds, counts, i, target) < Estimate(bounds, counts, i, larger)
  {
    var p, whole := Before(counts, i), counts[i] - Before(counts, i);
    PartRises(target - p, larger - p, whole);
    FractionRises(Before(bounds, i), bounds[i], target - p, larger - p, whole);
  }

  lemma FractionRises(low: real, high: real, part: real, more: real, whole: real)
    requires low < high && whole > 0.0 && part / whole < more / whole
    ensures Interpolate(low, high, part, whole) < Interpolate(low, high, more, whole)
  {
    Stretch(low, high - low, part / whole, more / whole);
  }

  lemma Stretch(low: real, span: real, f: real, g: real)
    requires span > 0.0 && f < g
    ensures low + span * f < low + span * g
  {
    Times(f, g, span);
    Commutes(f, span);
    Commutes(g, span);
  }

  lemma Commutes(a: real, b: real)
    ensures a * b == b * a
  {
  }

  lemma PartRises(part: real, more: real, whole: real)
    requires part < more && whole > 0.0
    ensures part / whole < more / whole
  {
    var f, g := part / whole, more / whole;
    assert f * whole == part && g * whole == more;
    if g < f {
      Times(g, f, whole);
    }
  }

  /** A target that is not the last count leaves the estimate below the bucket's end. */
  lemma EstimateBelowEnd(bounds: seq<real>, counts: seq<real>, i: nat, target: real)
    requires i < |bounds| == |counts| && Before(bounds, i) < bounds[i]
    requires Before(counts, i) < target < counts[i]
    ensures Estimate(bounds, counts, i, target) < bounds[i]
  {
    EstimateRises(bounds, counts, i, target, counts[i]);
    EstimateInBucket(bounds, counts, i, counts[i]);
  }

  lemma ReachLater(counts: seq<real>, target: real, larger: real)
    requires target <= larger
    ensures Reach(counts, target) <= Reach(counts, larger)
  {
    var j := Reach(counts, larger);
    assert j < |counts| ==> counts[j] >= larger;
  }

  /** The quantile of the same buckets rises with the total, once it is above the last count. */
  lemma QuantileRises(bounds: seq<real>, counts: seq<real>, total: real)
    requires Increasing(bounds) && |bounds| == |counts| > 0 && total > counts[|counts| - 1] > 0.0
    ensures Quantile(bounds, counts, counts[|counts| - 1]) < Quantile(bounds, counts, total)
  {
    var n, last := |counts|, counts[|counts| - 1];
    var target, larger := 0.95 * last, 0.95 * total;
    var i, j := Reach(counts, target), Reach(counts, larger);
    QuantileInBucket(bounds, counts, last);
    ReachLater(counts, target, larger);
    QuantileAt(bounds, counts, total, j);
    if j == n {
      if i == n - 1 {
        EstimateBelowEnd(bounds, counts, i, target);
      }
    } else if i < j {
      OneBucketReachesAt(counts, larger);
      EstimateInBucket(bounds, counts, j, larger);
      BoundsBetween(bounds, i, j);
    } else {
      EstimateRises(bounds, counts, i, target, larger);
    }
  }

  lemma OneBucketReachesAt(counts: seq<real>, target: real)
    requires target > 0.0 && Reach(counts, target) < |counts|
    ensures Before(counts, Reach(counts, target)) < target
  {
  }

  ghost predicate Cumulative(counts: seq<int>) {
    && (counts != [] ==> counts[0] >= 0)
    && (forall i :: 0 < i < |counts| ==> counts[i - 1] <= counts[i])
  }

  lemma {:induction false} CumulativeAt(counts: seq<int>, i: nat, j: nat)
    requires Cumulative(counts) && i <= j < |counts|
    ensures 0 <= counts[i] <= counts[j]
    decreases i + j
  {
    if i < j {
      CumulativeAt(counts, i, j - 1);
    } else if i > 0 {
      CumulativeAt(counts, i - 1, i - 1);
      assert counts[i - 1] <= counts[i];
    }
  }

  function InMilliseconds(seconds: Option<real>): Option<real> {
    if seconds.Some? then Some(seconds.value * 1000.0) else None
  }

  /** With no more counts than buckets both copies see the same histogram. */
  lemma CopiesAgree(bounds: seq<real>, counts: seq<int>)
    requires Increasing(bounds) && bounds != [] && |counts| <= |bounds|
    ensures ServerP95(bounds, Reals(counts)) == InMilliseconds(BenchP95(bounds, counts))
  {
    var n, reals := |counts|, Reals(counts);
    assert reals[..n] == reals;
    if n > 0 && counts[n - 1] > 0 {
      var total := counts[n - 1] as real;
      OneBucketReaches(reals, total);
      var i := Reach(reals, 0.95 * total);
      QuantileAt(bounds, reals, total, i);
      QuantileAt(bounds[..n], reals[..n], total, i);
      assert Before(bounds[..n], i) == Before(bounds, i);
    }
  }

  /** The server looks at the first |bounds| counts only, but for the total. */
  lemma SameBuckets(bounds: seq<real>, counts: seq<real>, total: real)
    requires bounds != [] && |counts| > |bounds|
    ensures Quantile(bounds, counts, total) == Quantile(bounds, counts[..|bounds|], total)
  {
    assert counts[..|bounds|][..|bounds|] == counts[..|bounds|];
  }

  /** What both copies report when there are more counts than buckets. */
  lemma LongerAnswers(bounds: seq<real>, counts: seq<int>)
    requires 0 < |bounds| < |counts|
    ensures var reals, last, total := Reals(counts)[..|bounds|], counts[|bounds| - 1], counts[|counts| - 1];
            && BenchP95(bounds, counts) == (if last <= 0 then None else Some(Quantile(bounds, reals, last as real)))
            && ServerP95(bounds, Reals(counts))
               == (if total <= 0 then None else Some(Quantile(bounds, reals, total as real) * 1000.0))
  {
    assert bounds[..|bounds|] == bounds;
    SameBuckets(bounds, Reals(counts), counts[|counts| - 1] as real);
  }

  /** More counts than buckets: the answers agree exactly when the two totals do. */
  lemma LongerCounts(bounds: seq<real>, counts: seq<int>, last: int, total: int)
    requires Increasing(bounds) && 0 < |bounds| < |counts|
    requires counts[|bounds| - 1] == last && counts[|counts| - 1] == total && 0 <= last <= total
    ensures ServerP95(bounds, Reals(counts)) == InMilliseconds(BenchP95(bounds, counts)) <==> total == last
  {
    LongerAnswers(bounds, counts);
    if 0 < last < total {
      QuantileRises(bounds, Reals(counts)[..|bounds|], total as real);
    }
  }

  /** The two copies of hist_p95 agree, answer or none, exactly when there are no more counts than buckets or
      nothing was observed beyond the listed buckets. */
  lemma CopiesAgreeIff(bounds: seq<real>, counts: seq<int>)
    requires Increasing(bounds) && bounds != [] && Cumulative(counts)
    ensures ServerP95(bounds, Reals(counts)) == InMilliseconds(BenchP95(bounds, counts)) <==>
              |counts| <= |bounds| || counts[|counts| - 1] == counts[|bounds| - 1]
  {
    if |counts| <= |bounds| {
      CopiesAgree(bounds, counts);
    } else {
      CumulativeAt(counts, |bounds| - 1, |counts| - 1);
      LongerCounts(bounds, counts, counts[|bounds| - 1], counts[|counts| - 1]);
    }
  }

  // ---- The policy ----

  datatype Signal = Signal(ttft: Option<real>, queue: Option<real>, serving: int)

  datatype Policy = Policy(targetTtft: real, targetQueue: real, ratio: real) {
    predicate Busy(signal: Signal) {
      || (signal.ttft.Some? && signal.ttft.value > targetTtft)
      || (signal.queue.Some? && signal.queue.value > targetQueue)
    }

    /** Below this a signal is low enough to scale down. */
    function Floor(target: real): real { target * ratio }

    predicate Idle(signal: Signal, minimum: int) {
      && (signal.ttft.None? || signal.ttft.value < Floor(targetTtft))
      && (signal.queue.None? || signal.queue.value < Floor(targetQueue))
      && signal.serving >= minimum
    }
  }

  function DesiredReplicas(current: int, minimum: int, maximum: int, signal: Signal, policy: Policy): int {
    if signal.ttft.None? && signal.queue.None? then current
    else if policy.Busy(signal) && current < maximum then Min(maximum, current + 1)
    else if policy.Idle(signal, minimum) && current > minimum then Max(minimum, current - 1)
    else current
  }

  /** One step up when some signal is above its target and there is room, one step down when all are below
      that ratio of their target, at least the minimum serves and there is room; otherwise, or without a signal, none. */
  lemma StepIs(current: int, minimum: int, maximum: int, signal: Signal, policy: Policy)
    ensures var next := DesiredReplicas(current, minimum, maximum, signal, policy);
            var none := signal.ttft == None && signal.queue == None;
            var above := || (signal.ttft.Some? && signal.ttft.value > policy.targetTtft)
                         || (signal.queue.Some? && signal.queue.value > policy.targetQueue);
            var low := && (signal.ttft.Some? ==> signal.ttft.value < policy.targetTtft * policy.ratio)
                       && (signal.queue.Some? ==> signal.queue.value < policy.targetQueue * policy.ratio)
                       && signal.serving >= minimum;
            && (next == current + 1 <==> !none && above && current < maximum)
            && (next == current - 1 <==> !none && low && minimum < current && !(above && current < maximum))
            && (next == current || next == current + 1 || next == current - 1)
  {
    var none := signal.ttft.None? && signal.queue.None?;
    assert none <==> signal.ttft == None && signal.queue == None;
  }

  /** The replica count after n ticks with the same signal. */
  function Iterate(current: int, minimum: int, maximum: int, signal: Signal, policy: Policy, n: nat): int {
    if n == 0 then current
    else DesiredReplicas(Iterate(current, minimum, maximum, signal, policy, n - 1), minimum, maximum, signal, policy)
  }

  /** A signal that asks for more and for less at once. */
  predicate Torn(signal: Signal, policy: Policy, minimum: int) {
    policy.Busy(signal) && policy.Idle(signal, minimum)
  }

  lemma FloorBelow(policy: Policy, target: real)
    requires target > 0.0
    ensures policy.Floor(target) > target <==> policy.ratio > 1.0
  {
    var excess := policy.ratio - 1.0;
    assert policy.Floor(target) == target + target * excess;
    if excess > 0.0 {
      Times(0.0, excess, target);
    } else if excess < 0.0 {
      Times(excess, 0.0, target);
    }
    assert target * excess == excess * target;
  }

  lemma Midpoint(low: real, high: real) returns (between: real)
    requires low < high
    ensures low < between < high
  {
    between := (low + high) / 2.0;
  }

  /** Whether such a signal exists is a matter of the scale-down ratio: exactly when it is above 1. */
  lemma TornIffRatio(policy: Policy, minimum: int)
    requires policy.targetTtft > 0.0 && policy.targetQueue > 0.0
    ensures (exists signal :: Torn(signal, policy, minimum)) <==> policy.ratio > 1.0
  {
    FloorBelow(policy, policy.targetTtft);
    FloorBelow(policy, policy.targetQueue);
    if policy.ratio > 1.0 {
      var between := Midpoint(policy.targetTtft, policy.Floor(policy.targetTtft));
      assert Torn(Signal(Some(between), None, minimum), policy, minimum);
    }
  }

  /** With a fixed signal that does not tear, the count moves by one towards one end of the window until it
      stays there; with one that does, it climbs and then swings between the top and the count below. */
  lemma {:induction false} IterateIs(current: int, minimum: int, maximum: int, signal: Signal, policy: Policy, n: nat)
    requires minimum <= current <= maximum
    ensures Iterate(current, minimum, maximum, signal, policy, n)
            == if minimum == maximum || (signal.ttft.None? && signal.queue.None?) then current
               else if Torn(signal, policy, minimum) then
                 if n <= maximum - current || (n - (maximum - current)) % 2 == 0 then Min(maximum, current + n) else maximum - 1
               else if policy.Busy(signal) then Min(maximum, current + n)
               else if policy.Idle(signal, minimum) then Max(minimum, current - n)
               else current
  {
    if n > 0 {
      IterateIs(current, minimum, maximum, signal, policy, n - 1);
    }
  }

  /** Convergence, for every policy: the counts stay in the window; after max - min ticks they stand still
      exactly when the signal does not tear or the window is a point; and then they were monotone. */
  lemma PolicyConverges(current: int, minimum: int, maximum: int, signal: Signal, policy: Policy, n: nat)
    requires minimum <= current <= maximum
    ensures var (x, y) := (Iterate(current, minimum, maximum, signal, policy, n),
                           Iterate(current, minimum, maximum, signal, policy, n + 1));
            var settles := !(Torn(signal, policy, minimum) && minimum < maximum);
            && minimum <= x <= maximum
            && (settles && policy.Busy(signal) ==> x <= y)
            && (settles && !policy.Busy(signal) ==> x >= y)
            && (n >= maximum - minimum ==> (x == y <==> settles))
  {
    IterateIs(current, minimum, maximum, signal, policy, n);
    IterateIs(current, minimum, maximum, signal, policy, n + 1);
  }

  // ---- The loop and its cooldown ----

  /** A deployment with a window, as one tick sees it. */
  datatype Observed = Observed(id: Id, units: int, minimum: int, maximum: int, signal: Signal)

  /** A successful scale. */
  datatype Move = Move(id: Id, time: real, target: int)

  /** The cooldown dictionary and, as history, every move made. */
  datatype Log = Log(cooldown: map<Id, real>, moves: seq<Move>)

  /** How a call of apply_scale ends: committed, or with an exception, and the rows it leaves in the session. */
  datatype Outcome = Done(after: seq<Instance>) | Failed(after: seq<Instance>)

  /** The rows of each deployment. */
  type Tables = map<Id, seq<Instance>>

  /** A tick in progress: all deployments share one session, and a commit writes all of it. */
  datatype Pass = Pass(log: Log, saved: Tables, session: Tables)

  function Target(d: Observed, policy: Policy): int {
    DesiredReplicas(d.units, d.minimum, d.maximum, d.signal, policy)
  }

  /** Whether a deployment is scaled at time `now`. */
  predicate Acts(log: Log, d: Observed, now: real, wait: real, policy: Policy) {
    Target(d, policy) != d.units && (d.id in log.cooldown ==> now - log.cooldown[d.id] >= wait)
  }

  /** One deployment's turn; `outcome` is how apply_scale ends if it is called. */
  function Turn(p: Pass, d: Observed, outcome: Outcome, now: real, wait: real, policy: Policy): Pass {
    if !Acts(p.log, d, now, wait, policy) then p
    else
      var session := p.session[d.id := outcome.after];
      if outcome.Failed? then p.(session := session)
      else Pass(Log(p.log.cooldown[d.id := now], p.log.moves + [Move(d.id, now, Target(d, policy))]), session, session)
  }

  function Turns(p: Pass, rows: seq<Observed>, outcomes: seq<Outcome>, now: real, wait: real, policy: Policy): Pass
    requires |outcomes| == |rows|
  {
    if rows == [] then p
    else
      var n := |rows| - 1;
      Turn(Turns(p, rows[..n], outcomes[..n], now, wait, policy), rows[n], outcomes[n], now, wait, policy)
  }

  /** A deployment is moved when the policy wants another count, its cooldown is over, and the scale succeeds. */
  ghost predicate IsMoved(cooldown: map<Id, real>, d: Observed, outcome: Outcome, now: real, wait: real, policy: Policy) {
    && DesiredReplicas(d.units, d.minimum, d.maximum, d.signal, policy) != d.units
    && (d.id in cooldown ==> now - cooldown[d.id] >= wait)
    && outcome.Done?
  }

  function Since(log: Log, moves: seq<Move>): seq<Move> {
    if |moves| <= |log.moves| then log.moves[|moves|..] else []
  }

  lemma {:induction false} TurnsAppend(p: Pass, rows: seq<Observed>, outcomes: seq<Outcome>, now: real, wait: real,
                                      policy: Policy)
    requires |outcomes| == |rows|
    ensures var log := Turns(p, rows, outcomes, now, wait, policy).log;
            && p.log.moves <= log.moves
            && (forall m :: m in Since(log, p.log.moves) ==> exists j :: 0 <= j < |rows| && rows[j].id == m.id)
            && (forall id :: (forall j :: 0 <= j < |rows| ==> rows[j].id != id) ==>
                 Lookup(log.cooldown, id) == Lookup(p.log.cooldown, id))
    decreases |rows|
  {
    if rows != [] {
      TurnsAppend(p, rows[..|rows| - 1], outcomes[..|rows| - 1], now, wait, policy);
    }
  }

  function Lookup(cooldown: map<Id, real>, id: Id): Option<real> {
    if id in cooldown then Some(cooldown[id]) else None
  }

  /** Over a tick: exactly the deployments that are moved appear among the moves, with the target the policy
      gives, and the cooldown remembers the time of exactly these. */
  lemma {:induction false} TurnsMove(p: Pass, rows: seq<Observed>, outcomes: seq<Outcome>, now: real, wait: real,
                                    policy: Policy, k: nat, target: int)
    requires |outcomes| == |rows| && k < |rows| && DistinctDeployments(rows)
    ensures var log, d := Turns(p, rows, outcomes, now, wait, policy).log, rows[k];
            && p.log.moves <= log.moves
            && (Move(d.id, now, target) in Since(log, p.log.moves) <==>
                  IsMoved(p.log.cooldown, d, outcomes[k], now, wait, policy) && target == Target(d, policy))
            && Lookup(log.cooldown, d.id) == if IsMoved(p.log.cooldown, d, outcomes[k], now, wait, policy) then Some(now)
                                             else Lookup(p.log.cooldown, d.id)
    decreases |rows|
  {
    var n := |rows| - 1;
    var front := Turns(p, rows[..n], outcomes[..n], now, wait, policy);
    TurnsAppend(p, rows[..n], outcomes[..n], now, wait, policy);
    TurnAppends(front, rows[n], outcomes[n], now, wait, policy);
    SinceAppend(p.log.moves, front.log.moves, OwnMove(front, rows[n], outcomes[n], now, wait, policy));
    var m, own := Move(rows[k].id, now, target), OwnMove(front, rows[n], outcomes[n], now, wait, policy);
    assert m in Since(front.log, p.log.moves) + own <==> m in Since(front.log, p.log.moves) || m in own;
    if k < n {
      TurnsMove(p, rows[..n], outcomes[..n], now, wait, policy, k, target);
      assert m !in own;
    } else {
      assert Lookup(front.log.cooldown, rows[n].id) == Lookup(p.log.cooldown, rows[n].id);
      assert m !in Since(front.log, p.log.moves);
    }
  }

  /** The move of one turn, if any. */
  ghost function OwnMove(p: Pass, d: Observed, outcome: Outcome, now: real, wait: real, policy: Policy): seq<Move> {
    if IsMoved(p.log.cooldown, d, outcome, now, wait, policy) then [Move(d.id, now, Target(d, policy))] else []
  }

  lemma TurnAppends(p: Pass, d: Observed, outcome: Outcome, now: real, wait: real, policy: Policy)
    ensures var log := Turn(p, d, outcome, now, wait, policy).log;
            && log.moves == p.log.moves + OwnMove(p, d, outcome, now, wait, policy)
            && forall id :: Lookup(log.cooldown, id) ==
                 if id == d.id && IsMoved(p.log.cooldown, d, outcome, now, wait, policy) then Some(now)
                 else Lookup(p.log.cooldown, id)
  {
  }

  lemma SinceAppend(first: seq<Move>, moves: seq<Move>, more: seq<Move>)
    requires first <= moves
    ensures (moves + more)[|first|..] == moves[|first|..] + more
  {
  }

  class Autoscaler {
    const policy: Policy
    const wait: real
    var cooldown: map<Id, real>
    ghost var moves: seq<Move>

    constructor (policy: Policy, wait: real)
      ensures this.policy == policy && this.wait == wait && cooldown == map[] && moves == []
    {
      this.policy, this.wait, cooldown, moves := policy, wait, map[], [];
    }

    /** autoscale_tick: one pass over the deployments in one session, from what the database holds. `saved` is
        what it holds when the session is closed; `actions` are the moves of this tick. */
    method Tick(rows: seq<Observed>, outcomes: seq<Outcome>, stored: Tables, now: real)
      returns (actions: seq<Move>, saved: Tables)
      requires |outcomes| == |rows|
      modifies this
      ensures var p := Turns(Pass(Log(old(cooldown), old(moves)), stored, stored), rows, outcomes, now, wait, policy);
              Log(cooldown, moves) == p.log && saved == p.saved
      ensures moves == old(moves) + actions
      ensures DistinctDeployments(rows) ==> forall k :: 0 <= k < |rows| ==>
                var moved := IsMoved(old(cooldown), rows[k], outcomes[k], now, wait, policy);
                && (forall target :: Move(rows[k].id, now, target) in actions <==> moved && target == Target(rows[k], policy))
                && Lookup(cooldown, rows[k].id) == if moved then Some(now) else Lookup(old(cooldown), rows[k].id)
    {
      actions, saved := [], stored;
      var session := stored;
      for n := 0 to |rows|
        invariant Pass(Log(cooldown, moves), saved, session)
                  == Turns(Pass(Log(old(cooldown), old(moves)), stored, stored), rows[..n], outcomes[..n], now, wait, policy)
        invariant moves == old(moves) + actions
      {
        var d := rows[n];
        var target := DesiredReplicas(d.units, d.minimum, d.maximum, d.signal, policy);
        assert rows[..n + 1][..n] == rows[..n] && outcomes[..n + 1][..n] == outcomes[..n];
        if target == d.units || (d.id in cooldown && now - cooldown[d.id] < wait) {
          continue;
        }
        session := session[d.id := outcomes[n].after];
        if outcomes[n].Failed? {
          continue;
        }
        saved := session;
        cooldown := cooldown[d.id := now];
        actions := actions + [Move(d.id, now, target)];
        moves := moves + [Move(d.id, now, target)];
      }
      assert rows[..|rows|] == rows && outcomes[..|outcomes|] == outcomes;
      ghost var p := Pass(Log(old(cooldown), old(moves)), stored, stored);
      assert Since(Turns(p, rows, outcomes, now, wait, policy).log, old(moves)) == actions;
      if DistinctDeployments(rows) {
        forall k | 0 <= k < |rows|
          ensures forall target :: Move(rows[k].id, now, target) in actions <==>
                    IsMoved(old(cooldown), rows[k], outcomes[k], now, wait, policy) && target == Target(rows[k], policy)
          ensures Lookup(cooldown, rows[k].id)
                  == if IsMoved(old(cooldown), rows[k], outcomes[k], now, wait, policy) then Some(now)
                     else Lookup(old(cooldown), rows[k].id) {
          forall target ensures Move(rows[k].id, now, target) in actions <==>
                    IsMoved(old(cooldown), rows[k], outcomes[k], now, wait, policy) && target == Target(rows[k], policy) {
            TurnsMove(p, rows, outcomes, now, wait, policy, k, target);
          }
          TurnsMove(p, rows, outcomes, now, wait, policy, k, 0);
        }
      }
    }
  }

  /** The dictionary holds the time of every deployment's last move, none of them later than now. */
  ghost predicate Remembers(log: Log, now: real) {
    forall i :: 0 <= i < |log.moves| ==>
      log.moves[i].id in log.cooldown && log.moves[i].time <= log.cooldown[log.moves[i].id] <= now
  }

  /** Two moves of one deployment are at least the cooldown apart. */
  ghost predicate Spaced(moves: seq<Move>, wait: real) {
    forall i, j :: 0 <= i < j < |moves| && moves[i].id == moves[j].id ==> moves[j].time - moves[i].time >= wait
  }

  lemma TurnSpaced(p: Pass, d: Observed, outcome: Outcome, now: real, wait: real, policy: Policy)
    requires Remembers(p.log, now) && Spaced(p.log.moves, wait)
    ensures var log := Turn(p, d, outcome, now, wait, policy).log; Remembers(log, now) && Spaced(log.moves, wait)
  {
    var moves := Turn(p, d, outcome, now, wait, policy).log.moves;
    forall i, j | 0 <= i < j < |moves| && moves[i].id == moves[j].id ensures moves[j].time - moves[i].time >= wait {
      assert moves[i] == p.log.moves[i];
    }
  }

  lemma {:induction false} TurnsSpaced(p: Pass, rows: seq<Observed>, outcomes: seq<Outcome>, now: real, wait: real,
                                      policy: Policy)
    requires |outcomes| == |rows| && Remembers(p.log, now) && Spaced(p.log.moves, wait)
    ensures var log := Turns(p, rows, outcomes, now, wait, policy).log; Remembers(log, now) && Spaced(log.moves, wait)
    decreases |rows|
  {
    if rows != [] {
      var n := |rows| - 1;
      TurnsSpaced(p, rows[..n], outcomes[..n], now, wait, policy);
      TurnSpaced(Turns(p, rows[..n], outcomes[..n], now, wait, policy), rows[n], outcomes[n], now, wait, policy);
    }
  }

  /** One call of autoscale_tick. */
  datatype TickCall = TickCall(rows: seq<Observed>, outcomes: seq<Outcome>, stored: Tables, now: real)

  ghost predicate Ticks(log: Log, t: TickCall, log': Log, wait: real, policy: Policy) {
    && |t.outcomes| == |t.rows|
    && log' == Turns(Pass(log, t.stored, t.stored), t.rows, t.outcomes, t.now, wait, policy).log
  }

  /** In every run of ticks whose clock does not go back, whatever is observed and whichever scales fail,
      two successful moves of one deployment are at least the cooldown apart. */
  lemma {:induction false} CooldownHolds(logs: seq<Log>, ticks: seq<TickCall>, wait: real, policy: Policy, k: nat)
    requires |logs| == |ticks| + 1 && logs[0] == Log(map[], []) && k < |logs|
    requires forall n :: 0 <= n < |ticks| ==> Ticks(logs[n], ticks[n], logs[n + 1], wait, policy)
    requires forall m, n :: 0 <= m < n < |ticks| ==> ticks[m].now <= ticks[n].now
    ensures Spaced(logs[k].moves, wait)
    ensures k > 0 ==> Remembers(logs[k], ticks[k - 1].now)
  {
    if k > 0 {
      CooldownHolds(logs, ticks, wait, policy, k - 1);
      var t := ticks[k - 1];
      assert k > 1 ==> ticks[k - 2].now <= t.now;
      TurnsSpaced(Pass(logs[k - 1], t.stored, t.stored), t.rows, t.outcomes, t.now, wait, policy);
    }
  }

  // ---- What a tick commits ----

  function At(tables: Tables, id: Id): Option<seq<Instance>> {
    if id in tables then Some(tables[id]) else None
  }

  ghost predicate DistinctDeployments(rows: seq<Observed>) {
    forall i, j :: 0 <= i < j < |rows| ==> rows[i].id != rows[j].id
  }

  /** Some deployment from the k-th to before the n-th is scaled successfully: its commit writes the session. */
  ghost predicate CommitFrom(log: Log, rows: seq<Observed>, outcomes: seq<Outcome>, k: nat, n: nat, now: real, wait: real,
                             policy: Policy)
    requires |outcomes| == |rows| && n <= |rows|
  {
    exists j :: k <= j < n && Acts(log, rows[j], now, wait, policy) && outcomes[j].Done?
  }

  /** What a tick leaves of one deployment's turn: in the session what the scale left, and in the database the
      same if a commit came with it or after it, and otherwise what was there. */
  ghost predicate Left(p: Pass, q: Pass, rows: seq<Observed>, outcomes: seq<Outcome>, k: nat, n: nat, now: real, wait: real,
                       policy: Policy)
    requires |outcomes| == |rows| && k < n <= |rows|
  {
    var id := rows[k].id;
    if !Acts(p.log, rows[k], now, wait, policy) then
      At(q.session, id) == At(p.session, id) && At(q.saved, id) == At(p.saved, id)
    else
      && At(q.session, id) == Some(outcomes[k].after)
      && At(q.saved, id) == if CommitFrom(p.log, rows, outcomes, k, n, now, wait, policy) then Some(outcomes[k].after)
                            else At(p.saved, id)
  }

  /** A deployment whose turn is still to come is untouched. */
  lemma {:induction false} TurnsElsewhere(p: Pass, rows: seq<Observed>, outcomes: seq<Outcome>, now: real, wait: real,
                                         policy: Policy, d: Observed)
    requires |outcomes| == |rows| && p.saved == p.session && forall i :: 0 <= i < |rows| ==> rows[i].id != d.id
    ensures var q := Turns(p, rows, outcomes, now, wait, policy);
            && At(q.session, d.id) == At(p.session, d.id) && At(q.saved, d.id) == At(p.saved, d.id)
            && (Acts(q.log, d, now, wait, policy) <==> Acts(p.log, d, now, wait, policy))
    decreases |rows|
  {
    if rows != [] {
      var n := |rows| - 1;
      TurnsElsewhere(p, rows[..n], outcomes[..n], now, wait, policy, d);
    }
  }

  /** A tick with failures: what a failed apply_scale left in the session is committed exactly when a later
      deployment of the same tick is scaled successfully, and lost otherwise. */
  lemma {:induction false} TickCommits(p: Pass, rows: seq<Observed>, outcomes: seq<Outcome>, n: nat, now: real, wait: real,
                                      policy: Policy, k: nat)
    requires |outcomes| == |rows| && k < n <= |rows| && DistinctDeployments(rows) && p.saved == p.session
    ensures Left(p, Turns(p, rows[..n], outcomes[..n], now, wait, policy), rows, outcomes, k, n, now, wait, policy)
    decreases n
  {
    var front, last := Turns(p, rows[..n - 1], outcomes[..n - 1], now, wait, policy), rows[n - 1];
    assert rows[..n][..n - 1] == rows[..n - 1] && outcomes[..n][..n - 1] == outcomes[..n - 1];
    TurnsElsewhere(p, rows[..n - 1], outcomes[..n - 1], now, wait, policy, last);
    if k < n - 1 {
      TickCommits(p, rows, outcomes, n - 1, now, wait, policy, k);
      CommitStep(p.log, rows, outcomes, k, n, now, wait, policy);
    } else {
      CommitStep(p.log, rows, outcomes, k, n, now, wait, policy);
    }
  }

  lemma CommitStep(log: Log, rows: seq<Observed>, outcomes: seq<Outcome>, k: nat, n: nat, now: real, wait: real,
                   policy: Policy)
    requires |outcomes| == |rows| && k < n <= |rows|
    ensures CommitFrom(log, rows, outcomes, k, n, now, wait, policy) <==>
              || CommitFrom(log, rows, outcomes, k, n - 1, now, wait, policy)
              || (Acts(log, rows[n - 1], now, wait, policy) && outcomes[n - 1].Done?)
  {
  }

  lemma CommitElsewhere(log: Log, rows: seq<Observed>, outcomes: seq<Outcome>, k: nat, n: nat, now: real, wait: real,
                        policy: Policy)
    requires |outcomes| == |rows| && k < n <= |rows| && outcomes[k].Failed?
    ensures CommitFrom(log, rows, outcomes, k, n, now, wait, policy) <==>
              CommitFrom(log, rows, outcomes, k + 1, n, now, wait, policy)
  {
  }

  /** So a failed scale is visible after the tick only with whole units and nothing broken, and only through
      another deployment's commit. */
  lemma FailedScaleCommitted(p: Pass, rows: seq<Observed>, outcomes: seq<Outcome>, now: real, wait: real, policy: Policy,
                             k: nat, nodes: nat, target: int)
    requires |outcomes| == |rows| && k < |rows| && DistinctDeployments(rows) && p.saved == p.session
    requires rows[k].id in p.saved && Acts(p.log, rows[k], now, wait, policy)
    requires outcomes[k].Failed? && Abandoned(nodes, target, p.saved[rows[k].id], outcomes[k].after)
    ensures var (before, after) := (p.saved[rows[k].id], At(Turns(p, rows, outcomes, now, wait, policy).saved, rows[k].id));
            if CommitFrom(p.log, rows, outcomes, k + 1, |rows|, now, wait, policy)
            then && after == Some(outcomes[k].after) && UnitsWhere(nodes, after.value, Broken) == {}
                 && |UnitsWhere(nodes, before, OnTrack)| <= |UnitsWhere(nodes, after.value, OnTrack)| < target
            else after == Some(before)
  {
    TickEnds(p, rows, outcomes, now, wait, policy, k);
    CommitElsewhere(p.log, rows, outcomes, k, |rows|, now, wait, policy);
    AbandonedKeepsUnits(nodes, target, p.saved[rows[k].id], outcomes[k].after);
  }

  lemma TickEnds(p: Pass, rows: seq<Observed>, outcomes: seq<Outcome>, now: real, wait: real, policy: Policy, k: nat)
    requires |outcomes| == |rows| && k < |rows| && DistinctDeployments(rows) && p.saved == p.session
    ensures Left(p, Turns(p, rows, outcomes, now, wait, policy), rows, outcomes, k, |rows|, now, wait, policy)
  {
    assert rows[..|rows|] == rows && outcomes[..|rows|] == outcomes;
    TickCommits(p, rows, outcomes, |rows|, now, wait, policy, k);
  }

  // ---- How far one tick moves a deployment ----

  function Wanted(rows: seq<Instance>): seq<Instance> {
    Sorting.Filter(rows, (r: Instance) => r.desired == WantRunning)
  }

  /** _unit_count: wanted instances, or the groups they belong to. */
  function UnitCount(nodes: nat, rows: seq<Instance>): nat {
    if nodes <= 1 then |Wanted(rows)| else |KeySet(nodes, Wanted(rows))|
  }

  lemma {:induction false} WantedKeys(rows: seq<Instance>)
    requires DistinctRows(rows)
    ensures |KeySet(1, Wanted(rows))| == |Wanted(rows)|
  {
    var p, apart := (r: Instance) => r.desired == WantRunning, (a: Instance, b: Instance) => a.id != b.id;
    Sorting.FilterKeepsApart(rows, p, apart);
    var ids := seq(|Wanted(rows)|, i requires 0 <= i < |Wanted(rows)| => Wanted(rows)[i].id);
    forall i, j | 0 <= i < j < |ids| ensures ids[i] != ids[j] {
      assert apart(Wanted(rows)[i], Wanted(rows)[j]);
    }
    Sets.DistinctSize(ids);
    forall k ensures k in KeySet(1, Wanted(rows)) <==> k in ids {
      if k in ids {
        var i :| 0 <= i < |ids| && ids[i] == k;
        assert Wanted(rows)[i] in Wanted(rows);
      }
      if k in KeySet(1, Wanted(rows)) {
        var r :| r in Wanted(rows) && r.id == k;
        var i :| 0 <= i < |Wanted(rows)| && Wanted(rows)[i] == r;
        assert ids[i] == k;
      }
    }
    assert (set x | x in ids) == KeySet(1, Wanted(rows));
  }

  /** It is the number of wanted units. */
  lemma UnitCountIsLive(nodes: nat, rows: seq<Instance>)
    requires DistinctRows(rows)
    ensures UnitCount(nodes, rows) == |UnitsWhere(nodes, rows, Live)|
  {
    Sorting.FilterMembers(rows, (r: Instance) => r.desired == WantRunning);
    forall k ensures k in KeySet(nodes, Wanted(rows)) <==> k in UnitsWhere(nodes, rows, Live) {
      Sorting.FilterMembers(rows, (r: Instance) => KeyOf(nodes, r) == k);
    }
    assert KeySet(nodes, Wanted(rows)) == UnitsWhere(nodes, rows, Live);
    if nodes <= 1 {
      WantedKeys(rows);
      assert KeySet(nodes, Wanted(rows)) == KeySet(1, Wanted(rows));
    }
  }

  /** The three counts the code calls "current" differ by what each leaves out: replica_unit_count has every
      unit, _unit_count the wanted ones, and apply_scale those that serve or are coming up. */
  lemma CountsDiffer(nodes: nat, rows: seq<Instance>)
    ensures var all, wanted, capacity := KeySet(nodes, rows), UnitsWhere(nodes, rows, Live), UnitsWhere(nodes, rows, OnTrack);
            && |capacity| <= |wanted| <= |all|
            && (|wanted| == |all| <==> forall k :: k in all ==> Live(Members(nodes, rows, k)))
            && (|capacity| == |wanted| <==>
                 UnitsWhere(nodes, rows, Broken) == {} && UnitsWhere(nodes, rows, Overlooked) == {})
  {
    var all, wanted := KeySet(nodes, rows), UnitsWhere(nodes, rows, Live);
    LiveUnits(nodes, rows);
    Sets.DifferenceSize(all, wanted);
    assert |all - wanted| == 0 <==> all - wanted == {};
    assert all - wanted == {} <==> all <= wanted;
  }

  /** What apply_scale makes of an autoscaler's proposal. */
  function Clamped(proposal: int, minimum: int, maximum: int): int {
    Max(minimum, Min(maximum, proposal))
  }

  /** Both numbers, for any target. */
  lemma UnitsMoved(nodes: nat, before: seq<Instance>, after: seq<Instance>, target: int)
    requires DistinctRows(before) && target >= 1 && Scaled(nodes, target, before, after)
    ensures var lame := |UnitsWhere(nodes, before, Broken)| + |UnitsWhere(nodes, before, Overlooked)|;
            && lame <= UnitCount(nodes, before)
            && |KeySet(nodes, after[|before|..])| == Max(0, target - UnitCount(nodes, before) + lame)
            && |Surplus(nodes, before, target)| == Max(0, UnitCount(nodes, before) - lame - target)
  {
    UnitCountIsLive(nodes, before);
    LiveUnits(nodes, before);
    UnitsStarted(nodes, target, before, after);
    ToStopIsSurplus(nodes, before, target);
  }

  /** The module says a tick moves at most one replica. Counting from _unit_count, apply_scale starts one
      unit more for every broken or overlooked one, and stops and restarts may have taken the count out of
      the window, where the clamp moves it back at once. So on the way up at most one unit is started exactly
      when none is broken or overlooked and the next count is not below the window; on the way down the two
      bounds are these. */
  lemma TickMoves(nodes: nat, before: seq<Instance>, after: seq<Instance>, minimum: int, maximum: int, signal: Signal,
                  policy: Policy)
    requires DistinctRows(before) && 1 <= minimum <= maximum
    requires var units := UnitCount(nodes, before);
             var proposal := DesiredReplicas(units, minimum, maximum, signal, policy);
             proposal != units && Scaled(nodes, Clamped(proposal, minimum, maximum), before, after)
    ensures var units := UnitCount(nodes, before);
            var proposal := DesiredReplicas(units, minimum, maximum, signal, policy);
            var target := Clamped(proposal, minimum, maximum);
            var lame := |UnitsWhere(nodes, before, Broken)| + |UnitsWhere(nodes, before, Overlooked)|;
            var started, stopped := |KeySet(nodes, after[|before|..])|, |Surplus(nodes, before, target)|;
            && started == Max(0, target - units + lame)
            && stopped == Max(0, units - lame - target)
            && (proposal > units ==> stopped == 0 && (started <= 1 <==> lame == 0 && minimum <= units + 1))
            && (proposal < units ==>
                 && (started <= 1 <==> lame <= Max(2, units - maximum + 1))
                 && (stopped <= 1 <==> units <= maximum + 1 + lame))
  {
    var units := UnitCount(nodes, before);
    var target := Clamped(DesiredReplicas(units, minimum, maximum, signal, policy), minimum, maximum);
    UnitsMoved(nodes, before, after, target);
    StepBounds(units, minimum, maximum, signal, policy,
               |UnitsWhere(nodes, before, Broken)| + |UnitsWhere(nodes, before, Overlooked)|);
  }

  lemma StepBounds(units: nat, minimum: int, maximum: int, signal: Signal, policy: Policy, lame: nat)
    requires 1 <= minimum <= maximum && lame <= units
    requires DesiredReplicas(units, minimum, maximum, signal, policy) != units
    ensures var proposal := DesiredReplicas(units, minimum, maximum, signal, policy);
            var target := Clamped(proposal, minimum, maximum);
            var started, stopped := Max(0, target - units + lame), Max(0, units - lame - target);
            && target >= 1
            && (proposal > units ==> stopped == 0 && (started <= 1 <==> lame == 0 && minimum <= units + 1))
            && (proposal < units ==>
                 && (started <= 1 <==> lame <= Max(2, units - maximum + 1))
                 && (stopped <= 1 <==> units <= maximum + 1 + lame))
  {
  }

  lemma UnitsStarted(nodes: nat, target: int, before: seq<Instance>, after: seq<Instance>)
    requires Scaled(nodes, target, before, after)
    ensures |KeySet(nodes, after[|before|..])| == Max(0, target - |UnitsWhere(nodes, before, OnTrack)|)
  {
  }

  /** A deployment of n healthy replicas. */
  lemma Healthy(n: nat) returns (rows: seq<Instance>)
    ensures DistinctRows(rows) && PlacementRuns.IdsBelow(rows, n) && |UnitsWhere(1, rows, OnTrack)| == n
    ensures UnitsWhere(1, rows, Broken) == {} && UnitsWhere(1, rows, Overlooked) == {} && UnitCount(1, rows) == n
  {
    var t := PlacementRuns.Template(0, 1000, false, 1, None);
    var placements := seq(n, i => Scheduler.Placement(i, 0, 8010));
    rows := PlacementRuns.NewReplicaRows(t, 0, placements, 0);
    ReplicaRowsGrow(t, [], 0, placements, 0);
    NewUnitsOnTrack(1, [], rows, n);
    PlacementRuns.ReplicaRowsOwned(t, 0, placements, 0);
    UnitCountIsLive(1, rows);
    LiveUnits(1, rows);
  }

  /** Ticks from outside the window, with nothing broken or overlooked: one of one replica under a window of
      4 to 8 that starts three at once, and one of four under a window of 1 to 2 that stops two. */
  lemma OutsideTheWindow(policy: Policy) returns (one: seq<Instance>, more: seq<Instance>, four: seq<Instance>,
                                                  fewer: seq<Instance>, busy: Signal, idle: Signal)
    requires policy == Policy(1000.0, 4.0, 0.5)
    ensures DesiredReplicas(UnitCount(1, one), 4, 8, busy, policy) == 2 && Scaled(1, Clamped(2, 4, 8), one, more)
    ensures UnitsWhere(1, one, Broken) == {} && UnitsWhere(1, one, Overlooked) == {} && |KeySet(1, more[|one|..])| == 3
    ensures DesiredReplicas(UnitCount(1, four), 1, 2, idle, policy) == 3 && Scaled(1, Clamped(3, 1, 2), four, fewer)
    ensures UnitsWhere(1, four, Broken) == {} && UnitsWhere(1, four, Overlooked) == {} && |Surplus(1, four, 2)| == 2
  {
    one := Healthy(1);
    four := Healthy(4);
    busy, idle := Signal(Some(2000.0), None, 1), Signal(Some(100.0), None, 4);
    more := GrowBy(one, 1, 3);
    UnitsStarted(1, 4, one, more);
    fewer := HaltUnits(1, four, StoppedUnits(1, four, 2));
    assert fewer[..|four|] == fewer;
    GrownNothing(1, four);
    assert fewer[|four|..] == four[|four|..];
    ToStopIsSurplus(1, four, 2);
    assert policy.Busy(busy) && policy.Floor(1000.0) == 500.0 && policy.Idle(idle, 1) && !policy.Busy(idle);
  }

  /** A scale-out by `count` single-node replicas. */
  lemma GrowBy(before: seq<Instance>, id: nat, count: nat) returns (after: seq<Instance>)
    requires PlacementRuns.IdsBelow(before, id) && UnitsWhere(1, before, Broken) == {}
    ensures Scaled(1, |UnitsWhere(1, before, OnTrack)| + count, before, after)
  {
    var t := PlacementRuns.Template(0, 1000, false, 1, None);
    var placements := seq(count, i => Scheduler.Placement(i, 0, 8010));
    after := before + PlacementRuns.NewReplicaRows(t, id, placements, 0);
    ReplicaRowsGrow(t, before, id, placements, 0);
    assert HaltUnits(1, before, {}) == before;
    assert after[..|before|] == before && after[|before|..] == PlacementRuns.NewReplicaRows(t, id, placements, 0);
    UnderwayDone(1, |UnitsWhere(1, before, OnTrack)| + count, before, after, count);
  }
}
