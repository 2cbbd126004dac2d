/** Volume and price arithmetic of the position manager. */
module ManagerDomain {
  import opened Common

  /** `Math.round`: halves go up. */
  function Round(x: real): int {
    (x + 0.5).Floor
  }

  function MaxInt(a: int, b: int): int { if a >= b then a else b }
  function MinInt(a: int, b: int): int { if a <= b then a else b }

  /** The largest multiple of `step` not above `x`. */
  function FloorTo(x: int, step: int): (r: int)
    requires step > 0
    ensures r <= x < r + step
  {
    x / step * step
  }

  lemma MultipleOf(k: int, step: int)
    requires step > 0
    ensures (k * step) % step == 0
  {
    var x := k * step;
    var d := k - x / step;
    assert x == step * (x / step) + x % step;
    assert d * step == x % step;
    SmallMultipleIsZero(d, step);
  }

  lemma SmallMultipleIsZero(d: int, step: int)
    requires step > 0 && 0 <= d * step < step
    ensures d * step == 0
  {
  }

  function NormalizePartialCloseRaw(current: int, original: int, percent: real, minVolume: int, stepVolume: int, originalMode: bool): int {
    var min := MaxInt(1, minVolume);
    var step := MaxInt(1, stepVolume);
    if current <= min || percent <= 0.0 then 0
    else
      var requested := RequestedRaw(if originalMode then original else current, percent, step);
      var fitting := FloorTo(MinInt(requested, current - min), step);
      if fitting >= min then fitting else 0
  }

  /** The share of the base volume, rounded to the nearest step. */
  function RequestedRaw(base: int, percent: real, step: int): int
    requires step > 0
  {
    Round(base as real * percent / 100.0 / step as real) * step
  }

  /** A partial close is a multiple of the step and at least the minimum, and leaves at least the minimum. */
  lemma PartialCloseFits(current: int, original: int, percent: real, minVolume: int, stepVolume: int, originalMode: bool)
    ensures
      var v := NormalizePartialCloseRaw(current, original, percent, minVolume, stepVolume, originalMode);
      v != 0 ==> v % MaxInt(1, stepVolume) == 0 && v >= MaxInt(1, minVolume) && current - v >= MaxInt(1, minVolume)
  {
    var min := MaxInt(1, minVolume);
    var step := MaxInt(1, stepVolume);
    if current > min && percent > 0.0 {
      var requested := RequestedRaw(if originalMode then original else current, percent, step);
      MultipleOf(MinInt(requested, current - min) / step, step);
    }
  }

  /** And it is the largest such volume not above the requested share: only when none exists is nothing closed. */
  lemma PartialCloseIsLargest(current: int, original: int, percent: real, minVolume: int, stepVolume: int, originalMode: bool, m: int)
    requires percent > 0.0 && m % MaxInt(1, stepVolume) == 0 && m >= MaxInt(1, minVolume)
    requires current - m >= MaxInt(1, minVolume)
    requires m <= RequestedRaw(if originalMode then original else current, percent, MaxInt(1, stepVolume))
    ensures m <= NormalizePartialCloseRaw(current, original, percent, minVolume, stepVolume, originalMode)
  {
    var step := MaxInt(1, stepVolume);
    var cap := MinInt(RequestedRaw(if originalMode then original else current, percent, step), current - MaxInt(1, minVolume));
    assert m == m / step * step;
    DivisionMonotone(m, cap, step);
  }

  lemma DivisionMonotone(a: int, b: int, step: int)
    requires step > 0 && a <= b
    ensures a / step * step <= b / step * step
  {
    var qa, qb := a / step, b / step;
    if qa > qb { assert qa * step >= (qb + 1) * step; }
  }

  function RiskPointsFromPrices(openPrice: real, stopLoss: real, point: real): real
    requires point > 0.0
  {
    if openPrice <= 0.0 || stopLoss <= 0.0 then 0.0
    else (if openPrice >= stopLoss then openPrice - stopLoss else stopLoss - openPrice) / point
  }

  function CurrentR(side: Side, openPrice: real, currentPrice: real, point: real, riskPoints: real): real
    requires point > 0.0
  {
    if openPrice <= 0.0 || currentPrice <= 0.0 || riskPoints <= 0.0 then 0.0
    else (if side == Buy then currentPrice - openPrice else openPrice - currentPrice) / point / riskPoints
  }

  predicate HitDirectionalPrice(side: Side, currentPrice: real, target: real) {
    currentPrice > 0.0 && target > 0.0 && if side == Buy then currentPrice >= target else currentPrice <= target
  }

  datatype VolumeMeta = VolumeMeta(lotSize: real, minVolume: int, maxVolume: int, stepVolume: int)
  datatype VolumeResult = Volume(raw: int) | NotPositive | NotInteger | OutsideLimits | OffStep

  function LotsToProtocolVolume(lots: real, meta: VolumeMeta): VolumeResult
    requires meta.stepVolume > 0
  {
    if lots <= 0.0 then NotPositive
    else
      var intended := lots * meta.lotSize;
      var volume := Round(intended);
      var gap := if intended >= volume as real then intended - volume as real else volume as real - intended;
      if gap > 0.000001 then NotInteger
      else if volume < meta.minVolume || (meta.maxVolume > 0 && volume > meta.maxVolume) then OutsideLimits
      else if volume % meta.stepVolume != 0 then OffStep
      else Volume(volume)
  }

  /** For step-aligned volumes, half a step of tolerance accepts exactly the volumes from which the whole
      requested amount is gone. */
  lemma HalfStepToleranceIsExact(held: int, before: int, requested: int, step: int)
    requires step > 0 && held % step == 0 && before % step == 0 && requested % step == 0
    ensures 2 * held <= 2 * (before - requested) + step <==> held <= before - requested
  {
    var a, b, c := held / step, before / step, requested / step;
    WholeSteps(held, step);
    WholeSteps(before, step);
    WholeSteps(requested, step);
    SumOfSteps(a, b, c, step);
    StepsAway(a - b + c, step);
  }

  lemma WholeSteps(volume: int, step: int)
    requires step > 0 && volume % step == 0
    ensures volume == volume / step * step
  {
  }

  lemma SumOfSteps(a: int, b: int, c: int, step: int)
    ensures (a - b + c) * step == a * step - b * step + c * step
  {
  }

  lemma StepsAway(n: int, step: int)
    requires step > 0
    ensures n * step <= 0 || n * step >= step
  {
  }

  /** A lot size is accepted as `v` exactly when `v` is the whole volume it means, within the limits and on the step. */
  lemma LotsMapIff(lots: real, meta: VolumeMeta, v: int)
    requires meta.stepVolume > 0
    ensures LotsToProtocolVolume(lots, meta) == Volume(v)
       <==> lots > 0.0 && -0.000001 <= lots * meta.lotSize - v as real <= 0.000001
            && v >= meta.minVolume && (meta.maxVolume > 0 ==> v <= meta.maxVolume) && v % meta.stepVolume == 0
  {
    if -0.000001 <= lots * meta.lotSize - v as real <= 0.000001 { NearestIsRound(lots * meta.lotSize, v); }
  }

  lemma NearestIsRound(x: real, v: int)
    requires -0.5 < x - v as real < 0.5
    ensures Round(x) == v
  {
  }

  /** The stop, on the losing side, stands at minus one R. */
  lemma StopIsMinusOneR(side: Side, openPrice: real, stopLoss: real, point: real)
    requires point > 0.0 && openPrice > 0.0 && stopLoss > 0.0
    requires if side == Buy then stopLoss < openPrice else stopLoss > openPrice
    ensures CurrentR(side, openPrice, stopLoss, point, RiskPointsFromPrices(openPrice, stopLoss, point)) == -1.0
  {
    var distance := if side == Buy then openPrice - stopLoss else stopLoss - openPrice;
    var risk := RiskPointsFromPrices(openPrice, stopLoss, point);
    assert risk == distance / point && risk > 0.0;
    assert -distance / point == -risk;
    assert -risk / risk == -1.0;
  }

  /** Without a price there is no risk, no R and no hit. */
  lemma NoPriceNoRisk(side: Side, openPrice: real, price: real, point: real, riskPoints: real)
    requires point > 0.0
    ensures openPrice <= 0.0 || price <= 0.0 ==> RiskPointsFromPrices(openPrice, price, point) == 0.0
    ensures openPrice <= 0.0 || price <= 0.0 || riskPoints <= 0.0 ==> CurrentR(side, openPrice, price, point, riskPoints) == 0.0
    ensures openPrice <= 0.0 || price <= 0.0 ==> !HitDirectionalPrice(side, openPrice, price) && !HitDirectionalPrice(side, price, openPrice)
  {
  }

  lemma DivideMonotone(a: real, b: real, k: real)
    requires k > 0.0
    ensures a >= b <==> a / k >= b / k
  {
    assert a == a / k * k && b == b / k * k;
    if a / k >= b / k { assert (a / k - b / k) * k >= 0.0; } else { assert (b / k - a / k) * k > 0.0; }
  }

  /** A target price is hit exactly when the position has reached the target's R. */
  lemma HitMeansTargetR(side: Side, openPrice: real, price: real, target: real, point: real, riskPoints: real)
    requires point > 0.0 && openPrice > 0.0 && price > 0.0 && target > 0.0 && riskPoints > 0.0
    ensures HitDirectionalPrice(side, price, target)
       <==> CurrentR(side, openPrice, price, point, riskPoints) >= CurrentR(side, openPrice, target, point, riskPoints)
  {
    var a := if side == Buy then price - openPrice else openPrice - price;
    var b := if side == Buy then target - openPrice else openPrice - target;
    DivideMonotone(a, b, point);
    DivideMonotone(a / point, b / point, riskPoints);
  }

  /** The requested share is the multiple of the step nearest to the exact percentage. */
  lemma RequestedIsNearest(base: int, percent: real, step: int)
    requires step > 0
    ensures RequestedRaw(base, percent, step) % step == 0
    ensures
      var exact := base as real * percent / 100.0;
      -(step as real) < 2.0 * (RequestedRaw(base, percent, step) as real - exact) <= step as real
  {
    var exact := base as real * percent / 100.0;
    MultipleOf(Round(exact / step as real), step);
    NearestMultiple(exact, step);
  }

  lemma NearestMultiple(exact: real, step: int)
    requires step > 0
    ensures -(step as real) < 2.0 * ((Round(exact / step as real) * step) as real - exact) <= step as real
  {
    var t := step as real;
    var k := Round(exact / t);
    assert (k * step) as real == k as real * t;
    GapInSteps(exact, t, exact / t, k as real, (k * step) as real);
  }

  lemma GapInSteps(exact: real, step: real, share: real, k: real, multiple: real)
    requires step > 0.0 && share * step == exact && k * step == multiple && -0.5 < k - share <= 0.5
    ensures -step < 2.0 * (multiple - exact) <= step
  {
    Subtract(k, share, step);
    HalfBounds(k - share, step, multiple - exact);
  }

  lemma Subtract(a: real, b: real, c: real)
    ensures (a - b) * c == a * c - b * c
  {
  }

  lemma HalfBounds(gap: real, step: real, product: real)
    requires step > 0.0 && -0.5 < gap <= 0.5 && product == gap * step
    ensures -step < 2.0 * product <= step
  {
    Subtract(0.5, gap, step);
    Subtract(gap, -0.5, step);
    PositiveProduct(0.5 - gap, step);
    PositiveProduct(gap + 0.5, step);
  }

  lemma PositiveProduct(a: real, b: real)
    requires b > 0.0
    ensures a > 0.0 ==> a * b > 0.0
    ensures a >= 0.0 ==> a * b >= 0.0
  {
  }
}
