/** Floating loss and peak-to-trough drawdown over the equity samples. */
module Drawdown {
  import opened Ordering
  import opened Episodes
  import opened MonthLedger

  const FLOATING_LIMIT: real := 2.0
  const YEAR := 365 * DAY

  datatype Sample = Sample(atUtc: int, balance: real, equity: real)

  datatype Report =
    | NoSamples
    | Report(maxFloating: real, maxDrawdown: real, observedAt: int, status: Status, points: nat)

  predicate SampledBefore(a: Sample, b: Sample) { a.atUtc <= b.atUtc }

  /** How many percent `equity` lies below `level`; no fall from a level that is not positive. */
  function Fall(level: real, equity: real): (r: real)
    ensures r >= 0.0
  {
    if level > 0.0 then Max(0.0, (level - equity) / level * 100.0) else 0.0
  }

  function Floating(p: Sample): real {
    Fall(p.balance, p.equity)
  }

  /** The fall from sample `i` to sample `j`. */
  function PairFall(ps: seq<Sample>, i: nat, j: nat): real
    requires i < |ps| && j < |ps|
  {
    Fall(ps[i].equity, ps[j].equity)
  }

  ghost predicate AttainedByPair(ps: seq<Sample>, n: nat, m: real)
    requires n <= |ps|
  {
    exists i, j :: 0 <= i <= j < n && PairFall(ps, i, j) == m
  }

  ghost predicate BoundsPairs(ps: seq<Sample>, n: nat, m: real)
    requires n <= |ps|
  {
    forall i, j :: 0 <= i <= j < n ==> PairFall(ps, i, j) <= m
  }

  /** `k` is the last of the first `n` samples with the largest floating loss, `m`. */
  ghost predicate LastWorst(ps: seq<Sample>, n: nat, k: nat, m: real)
    requires n <= |ps|
  {
    && k < n && Floating(ps[k]) == m
    && (forall j :: 0 <= j < n ==> Floating(ps[j]) <= m)
    && (forall j :: k < j < n ==> Floating(ps[j]) < m)
  }

  lemma CrossMultiply(a: real, p: real, b: real, q: real)
    requires p > 0.0 && q > 0.0
    ensures a / p <= b / q <==> a * q <= b * p
  {
    var x, y := a / p, b / q;
    assert a == x * p && b == y * q;
    assert a * q == x * (p * q) && b * p == y * (p * q);
    if x <= y { assert x * (p * q) <= y * (p * q); }
    if x > y { assert x * (p * q) > y * (p * q); }
  }

  /** Measuring from a higher level never hides a fall exactly when the equity fallen to is not negative. */
  lemma FallFromPeak(low: real, high: real, equity: real)
    requires 0.0 < low < high
    ensures Fall(low, equity) <= Fall(high, equity) <==> equity >= 0.0
  {
    var a, b := low - equity, high - equity;
    CrossMultiply(a, low, b, high);
    CrossMultiply(0.0, high, b, high);
    assert b * low - a * high == equity * (high - low);
    SignOfProduct(equity, high - low);
  }

  lemma SignOfProduct(x: real, k: real)
    requires k > 0.0
    ensures x * k >= 0.0 <==> x >= 0.0
  {
  }

  /** Equal levels fall alike, so the running peak dominates every earlier level for non-negative equities. */
  lemma PeakDominates(level: real, peak: real, equity: real)
    requires level <= peak && 0.0 <= equity
    ensures Fall(level, equity) <= Fall(peak, equity)
  {
    if 0.0 < level < peak { FallFromPeak(level, peak, equity); }
  }

  /** The highest of the first `n` equities, or zero if none is positive. */
  function RunningPeak(ps: seq<Sample>, n: nat): (peak: real)
    requires n <= |ps|
    ensures peak >= 0.0 && forall i :: 0 <= i < n ==> ps[i].equity <= peak
  {
    if n == 0 then 0.0 else Max(RunningPeak(ps, n - 1), ps[n - 1].equity)
  }

  /** The largest fall of a sample below the peak up to it. */
  function PeakFall(ps: seq<Sample>, n: nat): (m: real)
    requires n <= |ps|
    ensures m >= 0.0
  {
    if n == 0 then 0.0 else Max(PeakFall(ps, n - 1), Fall(RunningPeak(ps, n), ps[n - 1].equity))
  }

  lemma {:induction false} PeakIsReached(ps: seq<Sample>, n: nat)
    requires n <= |ps| && RunningPeak(ps, n) > 0.0
    ensures exists i :: 0 <= i < n && ps[i].equity == RunningPeak(ps, n)
  {
    if RunningPeak(ps, n) == ps[n - 1].equity {
    } else {
      PeakIsReached(ps, n - 1);
    }
  }

  /** The fall below the peak is the fall of a pair. */
  lemma PeakFallIsPairFall(ps: seq<Sample>, n: nat)
    requires n < |ps|
    ensures exists i :: 0 <= i <= n && PairFall(ps, i, n) == Fall(RunningPeak(ps, n + 1), ps[n].equity)
  {
    hide Fall;
    if RunningPeak(ps, n + 1) > 0.0 {
      PeakIsReached(ps, n + 1);
      var i :| 0 <= i < n + 1 && ps[i].equity == RunningPeak(ps, n + 1);
      assert PairFall(ps, i, n) == Fall(RunningPeak(ps, n + 1), ps[n].equity);
    } else {
      NothingFallsFrom(RunningPeak(ps, n + 1), ps[n].equity);
      NothingFallsFrom(ps[n].equity, ps[n].equity);
      assert PairFall(ps, n, n) == 0.0;
    }
  }

  lemma NothingFallsFrom(level: real, equity: real)
    requires level <= 0.0
    ensures Fall(level, equity) == 0.0
  {
  }

  lemma {:induction false} PeakFallIsAttained(ps: seq<Sample>, n: nat)
    requires 0 < n <= |ps|
    ensures AttainedByPair(ps, n, PeakFall(ps, n))
  {
    hide Fall, RunningPeak;
    PeakFallIsPairFall(ps, n - 1);
    var i :| 0 <= i <= n - 1 && PairFall(ps, i, n - 1) == Fall(RunningPeak(ps, n), ps[n - 1].equity);
    if PeakFall(ps, n) != PairFall(ps, i, n - 1) {
      PeakFallBoundsLast(ps, n - 1);
      PeakFallIsAttained(ps, n - 1);
      var k, j :| 0 <= k <= j < n - 1 && PairFall(ps, k, j) == PeakFall(ps, n - 1);
      assert PairFall(ps, k, j) == PeakFall(ps, n);
    }
  }

  /** What the scan adds for sample `n`, and that it adds something positive for the first one only if it falls. */
  lemma PeakFallBoundsLast(ps: seq<Sample>, n: nat)
    requires n < |ps|
    ensures PeakFall(ps, n + 1) >= Fall(RunningPeak(ps, n + 1), ps[n].equity)
    ensures n == 0 ==> PeakFall(ps, n + 1) == Fall(RunningPeak(ps, n + 1), ps[n].equity)
  {
  }

  lemma {:induction false} PeakFallBounds(ps: seq<Sample>, n: nat, j: nat)
    requires j < n <= |ps|
    ensures Fall(RunningPeak(ps, j + 1), ps[j].equity) <= PeakFall(ps, n)
  {
    hide Fall, RunningPeak;
    if j < n - 1 { PeakFallBounds(ps, n - 1, j); }
  }

  /** Sample `j` fell from a positive level below the peak to a negative equity. */
  predicate Understates(ps: seq<Sample>, i: nat, j: nat)
    requires i <= j < |ps|
  {
    ps[j].equity < 0.0 && 0.0 < ps[i].equity < RunningPeak(ps, j + 1)
  }

  /** A pair falls by more than its last sample falls below the peak exactly when that sample's equity is negative
      and the pair's first equity is positive and below the peak. */
  lemma PairExceedsPeakIff(ps: seq<Sample>, i: nat, j: nat)
    requires i <= j < |ps|
    ensures PairFall(ps, i, j) > Fall(RunningPeak(ps, j + 1), ps[j].equity) <==> Understates(ps, i, j)
  {
    var level, peak, equity := ps[i].equity, RunningPeak(ps, j + 1), ps[j].equity;
    if equity >= 0.0 {
      PeakDominates(level, peak, equity);
    } else if 0.0 < level < peak {
      FallFromPeak(level, peak, equity);
    }
  }

  /** The least positive of the first `n` equities, or zero if there is none. */
  function LeastPositive(ps: seq<Sample>, n: nat): (low: real)
    requires n <= |ps|
    ensures low >= 0.0 && forall i :: 0 <= i < n && ps[i].equity > 0.0 ==> 0.0 < low <= ps[i].equity
  {
    if n == 0 then 0.0
    else
      var low := LeastPositive(ps, n - 1);
      if ps[n - 1].equity > 0.0 && (low == 0.0 || ps[n - 1].equity < low) then ps[n - 1].equity else low
  }

  lemma {:induction false} LeastIsReached(ps: seq<Sample>, n: nat)
    requires n <= |ps| && LeastPositive(ps, n) > 0.0
    ensures exists i :: 0 <= i < n && ps[i].equity == LeastPositive(ps, n)
  {
    if LeastPositive(ps, n) != ps[n - 1].equity { LeastIsReached(ps, n - 1); }
  }

  /** To a negative equity the fall from the least positive level is the largest. */
  lemma LeastFallsMost(low: real, level: real, equity: real)
    requires 0.0 < low <= level && equity < 0.0
    ensures Fall(level, equity) <= Fall(low, equity)
  {
    if low < level { FallFromPeak(low, level, equity); }
  }

  /** The scan reports the largest fall of all pairs exactly when no sample of negative equity lies further below the least
      positive equity before it than the scan reports. */
  lemma ScanIsExactIff(ps: seq<Sample>)
    ensures BoundsPairs(ps, |ps|, PeakFall(ps, |ps|)) <==>
      forall j :: 0 <= j < |ps| && ps[j].equity < 0.0 ==> Fall(LeastPositive(ps, j + 1), ps[j].equity) <= PeakFall(ps, |ps|)
  {
    hide Fall, RunningPeak, PeakFall, LeastPositive;
    if forall j :: 0 <= j < |ps| && ps[j].equity < 0.0 ==> Fall(LeastPositive(ps, j + 1), ps[j].equity) <= PeakFall(ps, |ps|) {
      forall i, j | 0 <= i <= j < |ps| ensures PairFall(ps, i, j) <= PeakFall(ps, |ps|) {
        PairIsBounded(ps, i, j);
      }
    }
    if BoundsPairs(ps, |ps|, PeakFall(ps, |ps|)) {
      forall j | 0 <= j < |ps| && ps[j].equity < 0.0 ensures Fall(LeastPositive(ps, j + 1), ps[j].equity) <= PeakFall(ps, |ps|) {
        if LeastPositive(ps, j + 1) > 0.0 {
          LeastIsReached(ps, j + 1);
          var i :| 0 <= i < j + 1 && ps[i].equity == LeastPositive(ps, j + 1);
          assert PairFall(ps, i, j) <= PeakFall(ps, |ps|);
        } else {
          NothingFallsFrom(LeastPositive(ps, j + 1), ps[j].equity);
        }
      }
    }
  }

  lemma ExactWithoutNegatives(ps: seq<Sample>)
    ensures (forall k :: 0 <= k < |ps| ==> ps[k].equity >= 0.0) ==> BoundsPairs(ps, |ps|, PeakFall(ps, |ps|))
  {
    hide Fall, PeakFall, LeastPositive, BoundsPairs;
    if forall k :: 0 <= k < |ps| ==> ps[k].equity >= 0.0 { ScanIsExactIff(ps); }
  }

  lemma PairIsBounded(ps: seq<Sample>, i: nat, j: nat)
    requires i <= j < |ps|
    requires ps[j].equity < 0.0 ==> Fall(LeastPositive(ps, j + 1), ps[j].equity) <= PeakFall(ps, |ps|)
    ensures PairFall(ps, i, j) <= PeakFall(ps, |ps|)
  {
    hide Fall, RunningPeak, PeakFall, LeastPositive;
    if Understates(ps, i, j) {
      LeastFallsMost(LeastPositive(ps, j + 1), ps[i].equity, ps[j].equity);
    } else {
      PairExceedsPeakIff(ps, i, j);
      PeakFallBounds(ps, |ps|, j);
    }
  }

  /** The worst floating loss after `n` samples, and where it was seen last. */
  ghost predicate WorstSeen(ps: seq<Sample>, n: nat, maxFloating: real, worst: nat)
    requires n <= |ps|
  {
    maxFloating >= 0.0 && (if n == 0 then maxFloating == 0.0 else LastWorst(ps, n, worst, maxFloating))
  }

  lemma WorstStep(ps: seq<Sample>, n: nat, maxFloating: real, worst: nat)
    requires n < |ps| && WorstSeen(ps, n, maxFloating, worst)
    ensures
      var floating := Floating(ps[n]);
      WorstSeen(ps, n + 1, Max(maxFloating, floating), if floating >= maxFloating then n else worst)
  {
    hide Fall;
  }

  /** One pass over the samples in time order. */
  method Fdd(samples: seq<Sample>) returns (r: Report)
    ensures r.NoSamples? <==> samples == []
    ensures r.Report? ==>
      var ps := StableSort(samples, SampledBefore);
      r.points == |ps| && r.maxDrawdown == PeakFall(ps, |ps|) && Summarises(r, ps)
  {
    hide Fall, AttainedByPair, StableSort;
    var ps := StableSort(samples, SampledBefore);
    if ps == [] {
      return NoSamples;
    }
    var peak, maxFloating, maxDrawdown, observedAt := Max(0.0, ps[0].equity), 0.0, 0.0, ps[0].atUtc;
    ghost var worst: nat := 0;
    var n := 0;
    while n < |ps|
      invariant 0 <= n <= |ps|
      invariant peak == if n == 0 then Max(0.0, ps[0].equity) else RunningPeak(ps, n)
      invariant maxDrawdown == PeakFall(ps, n)
      invariant WorstSeen(ps, n, maxFloating, worst)
      invariant n > 0 ==> observedAt == ps[worst].atUtc
    {
      hide WorstSeen, LastWorst;
      var p := ps[n];
      WorstStep(ps, n, maxFloating, worst);
      peak := Max(peak, p.equity);
      var floating := Floating(p);
      var drawdown := Fall(peak, p.equity);
      if floating >= maxFloating {
        observedAt := p.atUtc;
        worst := n;
      }
      maxFloating := Max(maxFloating, floating);
      maxDrawdown := Max(maxDrawdown, drawdown);
      n := n + 1;
    }
    var span := if |ps| >= 2 then ps[|ps| - 1].atUtc - ps[0].atUtc else 0;
    var status := if maxFloating >= FLOATING_LIMIT then Fail
                  else if |ps| < 2 then InsufficientData
                  else if span >= YEAR then Pass else InProgress;
    r := Report(maxFloating, maxDrawdown, observedAt, status, |ps|);
    PeakFallIsAttained(ps, |ps|);
    ExactWithoutNegatives(ps);
    assert LastWorst(ps, |ps|, worst, maxFloating);
  }

  /** What the report says about the samples: the drawdown is one pair's fall and, for non-negative equities,
      the largest of all pairs' falls; the observation time is that of the last sample with the largest
      floating loss; and the status is FAIL exactly when some sample's floating loss reaches the limit. */
  ghost predicate Summarises(r: Report, ps: seq<Sample>)
    requires r.Report?
  {
    && (exists k :: 0 <= k < |ps| && LastWorst(ps, |ps|, k, r.maxFloating) && r.observedAt == ps[k].atUtc)
    && AttainedByPair(ps, |ps|, r.maxDrawdown)
    && ((forall k :: 0 <= k < |ps| ==> ps[k].equity >= 0.0) ==> BoundsPairs(ps, |ps|, r.maxDrawdown))
    && (r.status == Fail <==> exists k :: 0 <= k < |ps| && Floating(ps[k]) >= FLOATING_LIMIT)
    && (r.status == InsufficientData <==> r.maxFloating < FLOATING_LIMIT && |ps| < 2)
    && (r.status == Pass <==> r.maxFloating < FLOATING_LIMIT && |ps| >= 2 && ps[|ps| - 1].atUtc - ps[0].atUtc >= YEAR)
    && r.status != NotVerifiable
  }

  /** A value attained by some pair and bounding all pairs is the pairwise drawdown: there is only one. */
  lemma PairwiseDrawdownIsUnique(ps: seq<Sample>, a: real, b: real)
    requires AttainedByPair(ps, |ps|, a) && BoundsPairs(ps, |ps|, a)
    requires AttainedByPair(ps, |ps|, b) && BoundsPairs(ps, |ps|, b)
    ensures a == b
  {
  }

  /** From 100 to -100 is a fall of 200 percent, but the peak of 200 in between makes the scan report 150. */
  lemma NegativeEquityHidesFall()
    ensures
      var samples := [Sample(1, 100.0, 100.0), Sample(2, 100.0, 200.0), Sample(3, 100.0, -100.0)];
      var ps := StableSort(samples, SampledBefore);
      ps == samples && PeakFall(ps, 3) == 150.0 && PairFall(ps, 0, 2) == 200.0
  {
    var a, b, c := Sample(1, 100.0, 100.0), Sample(2, 100.0, 200.0), Sample(3, 100.0, -100.0);
    assert StableSort([c], SampledBefore) == [c];
    assert [b, c][1..] == [c] && StableSort([b, c], SampledBefore) == [b, c];
    assert [a, b, c][1..] == [b, c] && StableSort([a, b, c], SampledBefore) == [a, b, c];
    var ps := [a, b, c];
    assert RunningPeak(ps, 1) == 100.0 && RunningPeak(ps, 2) == 200.0 && RunningPeak(ps, 3) == 200.0;
    assert PeakFall(ps, 1) == 0.0 && PeakFall(ps, 2) == 0.0;
  }
}
