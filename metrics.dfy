/** The five derived metrics of one validated record and the recommendation
    drawn from them. Arithmetic is over exact reals; every step rounds to two
    decimals and the next step consumes the rounded value. */
module Metrics {
  import opened Records

  /** The integer nearest to `y`, ties going to the even neighbour. */
  function RoundHalfEven(y: real): int {
    var f := y.Floor;
    var d := y - f as real;
    if d < 0.5 then f
    else if d > 0.5 then f + 1
    else if f % 2 == 0 then f
    else f + 1
  }

  /** RoundHalfEven gives an integer within one half of `y`, and the even one
      when `y` lies exactly halfway between two integers. */
  lemma RoundHalfEvenSpec(y: real)
    ensures y - 0.5 <= RoundHalfEven(y) as real <= y + 0.5
    ensures RoundHalfEven(y) as real - y == 0.5 || y - RoundHalfEven(y) as real == 0.5 ==> RoundHalfEven(y) % 2 == 0
  {
  }

  /** Python's round(x, 2) over exact reals: the nearest multiple of 0.01. */
  function Round2(x: real): real {
    RoundHalfEven(x * 100.0) as real / 100.0
  }

  /** The rounded value is within half a cent of the value. */
  lemma Round2Near(x: real)
    ensures x - 0.005 <= Round2(x) <= x + 0.005
  {
    RoundHalfEvenSpec(x * 100.0);
  }

  /** Rounding keeps a lower bound that is itself a multiple of 0.01. */
  lemma Round2AtLeast(x: real, k: int)
    requires k as real / 100.0 <= x
    ensures k as real / 100.0 <= Round2(x)
  {
    var y := x * 100.0;
    RoundHalfEvenSpec(y);
    var n := RoundHalfEven(y);
    assert k as real <= y;
    assert k as real - 0.5 <= n as real;
    assert k <= n;
  }

  /** Rounding keeps an upper bound that is itself a multiple of 0.01. */
  lemma Round2AtMost(x: real, k: int)
    requires x <= k as real / 100.0
    ensures Round2(x) <= k as real / 100.0
  {
    var y := x * 100.0;
    RoundHalfEvenSpec(y);
    var n := RoundHalfEven(y);
    assert y <= k as real;
    assert n as real <= k as real + 0.5;
    assert n <= k;
  }

  /** A value rounds to zero exactly when it lies within half a cent of zero. */
  lemma Round2IsZero(x: real)
    ensures Round2(x) == 0.0 <==> -0.005 <= x <= 0.005
  {
    var y := x * 100.0;
    RoundHalfEvenSpec(y);
    var n := RoundHalfEven(y);
    assert Round2(x) == n as real / 100.0;
    if -0.005 <= x <= 0.005 {
      assert -0.5 <= y <= 0.5;
      assert -1 < n < 1;
    }
  }

  /** A rounded value is already a multiple of 0.01: rounding it again changes
      nothing, so each step may consume the previous rounded value as is. */
  lemma Round2Idempotent(x: real)
    ensures Round2(Round2(x)) == Round2(x)
  {
    var n := RoundHalfEven(x * 100.0);
    assert Round2(x) * 100.0 == n as real;
    assert RoundHalfEven(n as real) == n;
  }

  /** A value that is a whole number of hundredths. */
  predicate IsCents(v: real) {
    (v * 100.0).Floor as real == v * 100.0
  }

  /** Every rounded value is a whole number of hundredths. */
  lemma Round2IsCents(x: real)
    ensures IsCents(Round2(x))
  {
    var n := RoundHalfEven(x * 100.0);
    var v := Round2(x);
    assert v == n as real / 100.0;
    assert v * 100.0 == n as real;
    assert (n as real).Floor == n;
  }

  datatype Recommendation = Optimal | NeedsAdjustment {
    /** The text the report prints for the recommendation. */
    function Message(): string {
      match this
      case Optimal => "Optimal - Maintain current allocation"
      case NeedsAdjustment => "Needs Adjustment - Consider scaling resources"
    }
  }

  datatype Metrics = Metrics(
    predictedDemand: real,
    resourceUtilizationRatio: real,
    capacityMargin: real,
    compositeScore: real,
    efficiencyRatio: real,
    recommendation: Recommendation)

  /** Python raises ZeroDivisionError on a division by zero. */
  datatype CalcError = ZeroDivisionError

  datatype Result<T> = Ok(value: T) | Err(error: CalcError)

  /** The decision rule: optimal only when the score is high, the efficiency is
      within five percent of one and the utilisation is within the threshold. */
  function Recommend(score: real, efficiency: real, utilization: real, threshold: real): Recommendation {
    if score >= 70.0 && 0.95 <= efficiency <= 1.05 && utilization <= threshold
    then Optimal
    else NeedsAdjustment
  }

  /** Demand times scaling factor, before rounding. */
  function RawDemand(x: Inputs): real {
    x.userDemand as real * x.scalingFactor
  }

  /** Predicted demand: demand times scaling factor, rounded. */
  function PredictedDemand(x: Inputs): real {
    Round2(RawDemand(x))
  }

  /** Utilisation: the rounded predicted demand as a percentage of the current
      allocation, rounded. */
  function UtilizationRatio(x: Inputs): real
    requires x.currentResources != 0
  {
    Round2(PredictedDemand(x) / x.currentResources as real * 100.0)
  }

  /** Capacity margin: the headroom above the current allocation as a
      percentage of the maximum capacity, rounded. */
  function CapacityMargin(x: Inputs): real
    requires x.maxCapacity != 0
  {
    var c := x.currentResources as real;
    var mc := x.maxCapacity as real;
    Round2((mc - c) / mc * 100.0)
  }

  /** Composite score: 0.4 of the rounded margin plus 0.6 of the headroom left
      by the rounded utilisation, rounded. */
  function CompositeScore(x: Inputs): real
    requires x.currentResources != 0 && x.maxCapacity != 0
  {
    Round2(CapacityMargin(x) * 0.4 + (100.0 - UtilizationRatio(x)) * 0.6)
  }

  /** Efficiency: the current allocation over the rounded predicted demand, rounded. */
  function EfficiencyRatio(x: Inputs): real
    requires PredictedDemand(x) != 0.0
  {
    Round2(x.currentResources as real / PredictedDemand(x))
  }

  /** The metrics of one record. Any of the three divisions may divide by zero,
      and all three raise the same error, so which comes first does not matter. */
  function CalculateMetrics(x: Inputs): Result<Metrics> {
    if x.currentResources == 0 || x.maxCapacity == 0 || PredictedDemand(x) == 0.0
    then Err(ZeroDivisionError)
    else
      Ok(Metrics(PredictedDemand(x), UtilizationRatio(x), CapacityMargin(x),
                 CompositeScore(x), EfficiencyRatio(x),
                 Recommend(CompositeScore(x), EfficiencyRatio(x), UtilizationRatio(x),
                           x.performanceThreshold)))
  }

  lemma ProductPositive(a: real, b: real)
    requires a > 0.0 && b > 0.0
    ensures a * b > 0.0
  {
  }

  lemma MulMonotone(a: real, b: real, k: real)
    requires a <= b && k >= 0.0
    ensures a * k <= b * k
  {
    assert (b - a) * k >= 0.0;
  }

  lemma MulStrictMonotone(a: real, b: real, k: real)
    requires a < b && k > 0.0
    ensures a * k < b * k
  {
    ProductPositive(b - a, k);
  }

  /** Facts about t = (m - c) / m for a positive m: it is zero when c == m,
      not negative when c <= m, and below 1 when c is positive. */
  lemma MarginFraction(c: real, m: real)
    requires m > 0.0
    ensures c == m ==> (m - c) / m == 0.0
    ensures c <= m ==> (m - c) / m >= 0.0
    ensures c > 0.0 ==> (m - c) / m < 1.0
  {
    var t := (m - c) / m;
    assert t * m == m - c;
    if t < 0.0 {
      MulStrictMonotone(t, 0.0, m);
    }
    if t > 0.0 {
      MulStrictMonotone(0.0, t, m);
    }
    if t >= 1.0 {
      MulMonotone(1.0, t, m);
    }
  }

  /** Quotients of a positive by a positive are positive. */
  lemma QuotientPositive(a: real, b: real)
    requires a > 0.0 && b > 0.0
    ensures a / b > 0.0
  {
    var q := a / b;
    assert q * b == a;
    if q <= 0.0 {
      MulMonotone(q, 0.0, b);
    }
  }

  /** A product u * k below b * k for a positive k: u < b carries over to u * k. */
  lemma ScaledBelow(u: real, k: real, p: real, b: real)
    requires k > 0.0 && p == u * k && u < b
    ensures p < b * k
  {
    MulStrictMonotone(u, b, k);
  }

  /** For any inputs, the metrics fail with ZeroDivisionError exactly when the
      current allocation is zero, the maximum capacity is zero, or demand times
      scaling factor lies within half a cent of zero. */
  lemma DivisionByZeroCases(x: Inputs)
    ensures CalculateMetrics(x).Err? <==>
      x.currentResources == 0 || x.maxCapacity == 0 || -0.005 <= RawDemand(x) <= 0.005
  {
    Round2IsZero(RawDemand(x));
  }

  /** For a record that passed validation, the only division that can fail is
      the one by the predicted demand, and it fails exactly when the raw demand
      times the scaling factor rounds to zero, that is, is at most half a cent. */
  lemma DivisionByZeroIff(x: Inputs)
    requires InRange(x)
    ensures CalculateMetrics(x).Err? <==> RawDemand(x) <= 0.005
  {
    ProductPositive(x.userDemand as real, x.scalingFactor);
    assert RawDemand(x) > 0.0;
    Round2IsZero(RawDemand(x));
    assert PredictedDemand(x) == 0.0 <==> RawDemand(x) <= 0.005;
    assert CalculateMetrics(x).Err? <==> PredictedDemand(x) == 0.0;
  }

  /** The capacity margin is zero when the record runs at its maximum capacity,
      never negative when the maximum is at least the current allocation, and
      at most 100 when the current allocation is positive. */
  lemma CapacityMarginBounds(x: Inputs)
    requires x.maxCapacity > 0
    ensures x.maxCapacity == x.currentResources ==> CapacityMargin(x) == 0.0
    ensures x.maxCapacity >= x.currentResources ==> CapacityMargin(x) >= 0.0
    ensures x.currentResources > 0 ==> CapacityMargin(x) <= 100.0
  {
    var c := x.currentResources as real;
    var mc := x.maxCapacity as real;
    var raw := (mc - c) / mc * 100.0;
    MarginFraction(c, mc);
    if x.maxCapacity == x.currentResources {
      Round2IsZero(raw);
    }
    if x.maxCapacity >= x.currentResources {
      Round2AtLeast(raw, 0);
    }
    if x.currentResources > 0 {
      Round2AtMost(raw, 10000);
    }
  }

  /** For a record that passed validation and whose predicted demand is not
      zero (exactly the records whose metrics are defined): the predicted
      demand is positive and within half a cent of demand times scaling factor;
      utilisation and efficiency are not negative; the composite score is at
      most 100. */
  lemma MetricsBounds(x: Inputs)
    requires InRange(x)
    requires PredictedDemand(x) != 0.0
    ensures PredictedDemand(x) > 0.0
    ensures RawDemand(x) - 0.005 <= PredictedDemand(x)
    ensures PredictedDemand(x) <= RawDemand(x) + 0.005
    ensures UtilizationRatio(x) >= 0.0
    ensures EfficiencyRatio(x) >= 0.0
    ensures CompositeScore(x) <= 100.0
  {
    var c := x.currentResources as real;
    var raw := RawDemand(x);
    var pd := PredictedDemand(x);
    ProductPositive(x.userDemand as real, x.scalingFactor);
    assert RawDemand(x) > 0.0;
    Round2Near(raw);
    Round2AtLeast(raw, 0);
    QuotientPositive(pd, c);
    Round2AtLeast(pd / c * 100.0, 0);
    QuotientPositive(c, pd);
    Round2AtLeast(c / pd, 0);
    CapacityMarginBounds(x);
    Round2AtMost(CapacityMargin(x) * 0.4 + (100.0 - UtilizationRatio(x)) * 0.6, 10000);
  }

  /** An efficiency quotient c / pd within [0.945, 1.055] means pd is positive
      and pd / c is at least 94.7 percent. */
  lemma UtilizationFromEfficiency(c: real, pd: real)
    requires c > 0.0 && pd != 0.0
    requires 0.945 <= c / pd <= 1.055
    ensures pd > 0.0
    ensures pd / c * 100.0 >= 94.7
  {
    var e := c / pd;
    assert e * pd == c;
    if pd < 0.0 {
      MulStrictMonotone(pd, 0.0, e);
    }
    MulMonotone(e, 1.055, pd);
    assert c <= 1.055 * pd;
    if pd / c < 0.947 {
      ScaledBelow(pd / c, c, pd, 0.947);
    }
  }

  /** No record with a positive current allocation and a positive maximum
      capacity is ever recommended to keep its allocation: an efficiency ratio
      within [0.95, 1.05] forces the utilisation ratio above 94, which caps the
      composite score near 43, below the 70 the rule asks for. */
  lemma OptimalUnreachable(x: Inputs)
    requires x.currentResources > 0 && x.maxCapacity > 0
    requires CalculateMetrics(x).Ok?
    ensures CalculateMetrics(x).value.recommendation == NeedsAdjustment
  {
    var c := x.currentResources as real;
    var pd := PredictedDemand(x);
    if 0.95 <= EfficiencyRatio(x) <= 1.05 {
      Round2Near(c / pd);
      UtilizationFromEfficiency(c, pd);
      Round2Near(pd / c * 100.0);
      assert UtilizationRatio(x) >= 94.695;
      CapacityMarginBounds(x);
      Round2AtMost(CapacityMargin(x) * 0.4 + (100.0 - UtilizationRatio(x)) * 0.6, 4400);
    }
  }

  /** Predicted demand is the two-decimal rounding of demand times scaling
      factor and is not zero; utilisation and efficiency are computed from that
      rounded value, not from the raw product. */
  lemma DemandChain(x: Inputs)
    requires CalculateMetrics(x).Ok?
    ensures x.currentResources != 0
    ensures var m := CalculateMetrics(x).value;
      && m.predictedDemand != 0.0
      && m.predictedDemand == Round2(RawDemand(x))
      && m.resourceUtilizationRatio == Round2(m.predictedDemand / x.currentResources as real * 100.0)
      && m.efficiencyRatio == Round2(x.currentResources as real / m.predictedDemand)
  {
    var m := CalculateMetrics(x).value;
    assert m.predictedDemand == PredictedDemand(x);
  }

  /** The capacity margin is the rounded headroom percentage, and the composite
      score is computed from the rounded margin and the rounded utilisation. */
  lemma ScoreChain(x: Inputs)
    requires CalculateMetrics(x).Ok?
    ensures x.maxCapacity != 0
    ensures var m := CalculateMetrics(x).value;
      && m.capacityMargin == Round2((x.maxCapacity as real - x.currentResources as real) / x.maxCapacity as real * 100.0)
      && m.compositeScore == Round2(m.capacityMargin * 0.4 + (100.0 - m.resourceUtilizationRatio) * 0.6)
  {
    var m := CalculateMetrics(x).value;
    assert m.capacityMargin == CapacityMargin(x);
  }

  /** All five metrics are whole numbers of hundredths. */
  lemma MetricsAreCents(x: Inputs)
    requires CalculateMetrics(x).Ok?
    ensures var m := CalculateMetrics(x).value;
      && IsCents(m.predictedDemand) && IsCents(m.resourceUtilizationRatio)
      && IsCents(m.capacityMargin) && IsCents(m.compositeScore) && IsCents(m.efficiencyRatio)
  {
    var c := x.currentResources as real;
    var mc := x.maxCapacity as real;
    Round2IsCents(RawDemand(x));
    Round2IsCents(PredictedDemand(x) / c * 100.0);
    Round2IsCents((mc - c) / mc * 100.0);
    Round2IsCents(CapacityMargin(x) * 0.4 + (100.0 - UtilizationRatio(x)) * 0.6);
    Round2IsCents(c / PredictedDemand(x));
  }

  /** The recommendation is the "maintain" text exactly when the score is at
      least 70, the efficiency lies in [0.95, 1.05] and the utilisation does
      not exceed the threshold, and the "scale" text otherwise. */
  lemma RecommendationRule(x: Inputs)
    requires CalculateMetrics(x).Ok?
    ensures var m := CalculateMetrics(x).value;
      (m.recommendation == Optimal <==>
        m.compositeScore >= 70.0 && 0.95 <= m.efficiencyRatio <= 1.05
        && m.resourceUtilizationRatio <= x.performanceThreshold)
    ensures var m := CalculateMetrics(x).value;
      m.recommendation.Message() ==
        if m.recommendation == Optimal then "Optimal - Maintain current allocation"
        else "Needs Adjustment - Consider scaling resources"
  {
  }
}
