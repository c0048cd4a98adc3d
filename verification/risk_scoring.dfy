/**
 The additive risk score (utils/risk_scoring.py): 30 for a failed login,
 20 for a night-time login, 40 for a negative anomaly score, capped at 100.
 The anomaly score is the model's output; only its sign matters here.
 */
module RiskScoring {

  const FailureWeight: int := 30
  const NightWeight: int := 20
  const AnomalyWeight: int := 40
  const ScoreCap: int := 100

  /** Every value the score can take; 80 and 100 are not among them. */
  const ReachableScores: set<int> := {0, 20, 30, 40, 50, 60, 70, 90}

  /** The contribution of one signal. */
  function Weight(signal: bool, w: int): int {
    if signal then w else 0
  }

  function Min(a: int, b: int): int {
    if a <= b then a else b
  }

  /** The uncapped sum, accumulated in the order the source adds the terms. */
  function RawScore(loginFailed: int, isNight: int, anomalyScore: real): int {
    var s1 := if loginFailed == 1 then FailureWeight else 0;
    var s2 := if isNight == 1 then s1 + NightWeight else s1;
    if anomalyScore < 0.0 then s2 + AnomalyWeight else s2
  }

  /**
   The risk score of one row. It is the plain sum of the weights of the signals
   that are set, it always lies in [0, 100], it is one of the eight reachable
   values, and it exceeds 70 exactly when all three signals are set.
   */
  function CalculateRisk(loginFailed: int, isNight: int, anomalyScore: real): (r: int)
    ensures 0 <= r <= ScoreCap
    ensures r in ReachableScores
    ensures r == Weight(loginFailed == 1, FailureWeight) + Weight(isNight == 1, NightWeight)
               + Weight(anomalyScore < 0.0, AnomalyWeight)
    ensures r > 70 <==> loginFailed == 1 && isNight == 1 && anomalyScore < 0.0
  {
    Min(RawScore(loginFailed, isNight, anomalyScore), ScoreCap)
  }

  /** The cap never bites: the uncapped sum is at most 90. */
  lemma CapIsInert(loginFailed: int, isNight: int, anomalyScore: real)
    ensures RawScore(loginFailed, isNight, anomalyScore) <= 90
    ensures CalculateRisk(loginFailed, isNight, anomalyScore) == RawScore(loginFailed, isNight, anomalyScore)
  {
  }

  /** Every reachable value is attained, so the set of reachable scores is exact. */
  lemma ReachableScoresAttained(s: int)
    requires s in ReachableScores
    ensures exists f: int, n: int, a: real :: CalculateRisk(f, n, a) == s
  {
    if s == 0 { assert CalculateRisk(0, 0, 0.0) == s; }
    else if s == 20 { assert CalculateRisk(0, 1, 0.0) == s; }
    else if s == 30 { assert CalculateRisk(1, 0, 0.0) == s; }
    else if s == 40 { assert CalculateRisk(0, 0, -1.0) == s; }
    else if s == 50 { assert CalculateRisk(1, 1, 0.0) == s; }
    else if s == 60 { assert CalculateRisk(0, 1, -1.0) == s; }
    else if s == 70 { assert CalculateRisk(1, 0, -1.0) == s; }
    else { assert CalculateRisk(1, 1, -1.0) == s; }
  }

  /** Above 70 means above 85: the only score over 70 is 90. */
  lemma HighScoreIsNinety(loginFailed: int, isNight: int, anomalyScore: real)
    ensures CalculateRisk(loginFailed, isNight, anomalyScore) > 70
        <==> CalculateRisk(loginFailed, isNight, anomalyScore) == 90
    ensures CalculateRisk(loginFailed, isNight, anomalyScore) > 70
        <==> CalculateRisk(loginFailed, isNight, anomalyScore) > 85
  {
  }

  /** The comparison is strict: an anomaly score of exactly 0 adds nothing. */
  lemma ZeroAnomalyAddsNothing(loginFailed: int, isNight: int, positive: real, negative: real)
    requires positive >= 0.0 && negative < 0.0
    ensures CalculateRisk(loginFailed, isNight, 0.0) == CalculateRisk(loginFailed, isNight, positive)
    ensures CalculateRisk(loginFailed, isNight, 0.0) < CalculateRisk(loginFailed, isNight, negative)
  {
  }

  /** Turning signals on never lowers the score. */
  lemma RiskMonotone(f1: int, n1: int, a1: real, f2: int, n2: int, a2: real)
    requires f1 == 1 ==> f2 == 1
    requires n1 == 1 ==> n2 == 1
    requires a1 < 0.0 ==> a2 < 0.0
    ensures CalculateRisk(f1, n1, a1) <= CalculateRisk(f2, n2, a2)
  {
  }

  /** The score depends on the anomaly value only through its sign. */
  lemma OnlySignMatters(loginFailed: int, isNight: int, a1: real, a2: real)
    requires (a1 < 0.0) == (a2 < 0.0)
    ensures CalculateRisk(loginFailed, isNight, a1) == CalculateRisk(loginFailed, isNight, a2)
  {
  }
}
