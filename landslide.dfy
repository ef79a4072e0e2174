/** The logistic landslide model of lambda_function.py: the probability of a
    landslide given the rainfall of the last three hours, and the risk level
    bucketed from that probability.

    The exponential function is not computed: it is a parameter `exp` of which
    only positivity (and, for monotonicity in the rainfall, that it is strictly
    increasing) is assumed. All arithmetic is on exact reals. */
module Landslide {

  /** Intercept and rainfall coefficient of the logistic model (mm of rain). */
  const Intercept: real := -13.7821
  const Coefficient: real := 0.4294

  /** Probability thresholds of the three risk levels. */
  const LowThreshold: real := 0.01
  const HighThreshold: real := 0.7

  ghost predicate PositiveExp(exp: real -> real)
  {
    forall x :: exp(x) > 0.0
  }

  ghost predicate IncreasingExp(exp: real -> real)
  {
    forall x, y :: x < y ==> exp(x) < exp(y)
  }

  /** The linear predictor z of the logistic model. */
  function Linear(rainfallMm: real): (z: real)
  {
    Intercept + Coefficient * rainfallMm
  }

  /** The logistic shape e / (1 + e), where e stands for exp(z). */
  function Logistic(e: real): (p: real)
    requires e > 0.0
    ensures 0.0 < p < 1.0
  {
    e / (1.0 + e)
  }

  /** The probability of a landslide after `rainfallMm` millimetres of rain. */
  function LandslideProbability(exp: real -> real, rainfallMm: real): (p: real)
    requires PositiveExp(exp)
    ensures 0.0 < p < 1.0
  {
    Logistic(exp(Linear(rainfallMm)))
  }

  /** Risk level 0 (low), 1 (moderate) or 2 (high) of a probability. */
  function RiskLevel(prob: real): (level: int)
    ensures 0 <= level <= 2
    ensures level == 0 <==> prob <= LowThreshold
    ensures level == 1 <==> LowThreshold < prob <= HighThreshold
    ensures level == 2 <==> HighThreshold < prob
  {
    if prob <= LowThreshold then 0
    else if prob <= HighThreshold then 1
    else 2
  }

  /** The risk level of the probability after `rainfallMm` millimetres of rain. */
  function LandslideRisk(exp: real -> real, rainfallMm: real): (level: int)
    requires PositiveExp(exp)
    ensures 0 <= level <= 2
    ensures level == 0 <==> LandslideProbability(exp, rainfallMm) <= LowThreshold
    ensures level == 2 <==> LandslideProbability(exp, rainfallMm) > HighThreshold
  {
    RiskLevel(LandslideProbability(exp, rainfallMm))
  }

  /** e / (1 + e) is strictly increasing in e. */
  lemma LogisticStrictlyIncreasing(e1: real, e2: real)
    requires 0.0 < e1 < e2
    ensures Logistic(e1) < Logistic(e2)
  {
    var d1, d2 := 1.0 + e1, 1.0 + e2;
    assert e1 * d2 == e1 + e1 * e2;
    assert e2 * d1 == e2 + e1 * e2;
    assert e1 * d2 < e2 * d1;
    calc {
      Logistic(e1);
      e1 / d1;
      (e1 * d2) / (d1 * d2);
    <
      { DivLessDiv(e1 * d2, e2 * d1, d1 * d2); }
      (e2 * d1) / (d1 * d2);
      e2 / d2;
      Logistic(e2);
    }
  }

  lemma DivLessDiv(a: real, b: real, c: real)
    requires a < b && c > 0.0
    ensures a / c < b / c
  {
    assert b / c - a / c == (b - a) / c;
  }

  /** The shape computed by the code, e / (1 + e), is the sigmoid
      1 / (1 + exp(-z)) whenever exp(-z) is the reciprocal of exp(z). */
  lemma LogisticIsSigmoid(e: real, eNeg: real)
    requires e > 0.0 && eNeg == 1.0 / e
    ensures Logistic(e) == 1.0 / (1.0 + eNeg)
  {
    calc {
      1.0 / (1.0 + eNeg);
      1.0 / ((e + 1.0) / e);
      e / (1.0 + e);
    }
  }

  /** More rain never lowers the probability; strictly more rain raises it. */
  lemma ProbabilityIncreasing(exp: real -> real, r1: real, r2: real)
    requires PositiveExp(exp) && IncreasingExp(exp)
    requires r1 < r2
    ensures LandslideProbability(exp, r1) < LandslideProbability(exp, r2)
  {
    assert Linear(r1) < Linear(r2);
    LogisticStrictlyIncreasing(exp(Linear(r1)), exp(Linear(r2)));
  }

  /** At the rainfall where z is zero the probability is one half. */
  lemma ProbabilityAtMidpoint(exp: real -> real)
    requires PositiveExp(exp) && exp(0.0) == 1.0
    ensures Linear(137821.0 / 4294.0) == 0.0
    ensures LandslideProbability(exp, 137821.0 / 4294.0) == 0.5
  {
  }

  /** The risk level never decreases as the probability grows. */
  lemma RiskLevelMonotone(p1: real, p2: real)
    requires p1 <= p2
    ensures RiskLevel(p1) <= RiskLevel(p2)
  {
  }

  /** The risk level never decreases as the rainfall grows. */
  lemma LandslideRiskMonotone(exp: real -> real, r1: real, r2: real)
    requires PositiveExp(exp) && IncreasingExp(exp)
    requires r1 <= r2
    ensures LandslideRisk(exp, r1) <= LandslideRisk(exp, r2)
  {
    if r1 < r2 {
      ProbabilityIncreasing(exp, r1, r2);
    }
    RiskLevelMonotone(LandslideProbability(exp, r1), LandslideProbability(exp, r2));
  }
}
