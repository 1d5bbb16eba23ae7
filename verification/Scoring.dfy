/**
  `scoring.py`: six weighted factors, each rounded to six digits, summed, clamped and rounded to four.
  Floats are exact reals; the two levels of rounding are modelled.
 */
module Scoring {
  import opened Wrappers
  import Rounding

  const W_SEVERITY := 0.40
  const W_MAGNITUDE := 0.25
  const W_CORROBORATION := 0.15
  const W_CRITICALITY := 0.10
  const W_QUALITY := 0.05
  const W_HEALTH := 0.05

  const SIX := 1000000.0
  const FOUR := 10000.0

  datatype Priority = Low | Medium | High | Critical {
    function Rank(): nat {
      match this
      case Low => 0
      case Medium => 1
      case High => 2
      case Critical => 3
    }
  }

  datatype ScoreInput = ScoreInput(
    severityWeight: real,
    observedRatio: real,
    threshold: real,
    metricCount: int,
    criticalityScore: Option<int>,
    packetLossPct: Option<real>,
    healthScore: Option<real>)

  function Clamp(value: real): (r: real)
    ensures 0.0 <= r <= 1.0
    ensures 0.0 <= value <= 1.0 ==> r == value
  {
    var upper := if value < 1.0 then value else 1.0;
    if upper > 0.0 then upper else 0.0
  }

  function MagnitudeBeyondThreshold(observedRatio: real, threshold: real): real {
    if threshold <= 0.0 then
      if observedRatio > 0.0 then 1.0 else 0.0
    else
      var excess := if observedRatio - threshold > 0.0 then observedRatio - threshold else 0.0;
      Clamp(excess / threshold)
  }

  function CorroborationFactor(metricCount: int): real {
    if metricCount <= 1 then 0.0 else Clamp((metricCount - 1) as real / 2.0)
  }

  function CriticalityFactor(score: Option<int>): real {
    match score
    case None => 0.0
    case Some(c) => Clamp(c as real / 3.0)
  }

  function TelemetryQualityFactor(packetLossPct: Option<real>): real {
    match packetLossPct
    case None => 0.0
    case Some(p) => Clamp(p / 20.0)
  }

  function AssetHealthFactor(healthScore: Option<real>): real {
    match healthScore
    case None => 0.0
    case Some(h) => Clamp((100.0 - h) / 100.0)
  }

  /** The six factors, before weighting; every component is in [0, 1]. */
  datatype Factors = Factors(
    severity: real, magnitude: real, corroboration: real, criticality: real, quality: real, health: real)
  {
    ghost predicate InUnit() {
      && 0.0 <= severity <= 1.0 && 0.0 <= magnitude <= 1.0 && 0.0 <= corroboration <= 1.0
      && 0.0 <= criticality <= 1.0 && 0.0 <= quality <= 1.0 && 0.0 <= health <= 1.0
    }

    ghost predicate AtMost(other: Factors) {
      && severity <= other.severity && magnitude <= other.magnitude && corroboration <= other.corroboration
      && criticality <= other.criticality && quality <= other.quality && health <= other.health
    }

    /** The weighted sum with no rounding at all. */
    function ExactSum(): real {
      severity * W_SEVERITY + magnitude * W_MAGNITUDE + corroboration * W_CORROBORATION
      + criticality * W_CRITICALITY + quality * W_QUALITY + health * W_HEALTH
    }

    /** The weighted sum as the code takes it: each term rounded to six digits first. */
    function RoundedSum(): real {
      Rounding.RoundTo(severity * W_SEVERITY, SIX) + Rounding.RoundTo(magnitude * W_MAGNITUDE, SIX)
      + Rounding.RoundTo(corroboration * W_CORROBORATION, SIX) + Rounding.RoundTo(criticality * W_CRITICALITY, SIX)
      + Rounding.RoundTo(quality * W_QUALITY, SIX) + Rounding.RoundTo(health * W_HEALTH, SIX)
    }

    function AnomalyScore(): real {
      Rounding.RoundTo(Clamp(RoundedSum()), FOUR)
    }
  }

  function FactorsOf(inp: ScoreInput): (f: Factors)
    ensures f.InUnit()
  {
    Factors(
      Clamp(inp.severityWeight),
      MagnitudeBeyondThreshold(inp.observedRatio, inp.threshold),
      CorroborationFactor(inp.metricCount),
      CriticalityFactor(inp.criticalityScore),
      TelemetryQualityFactor(inp.packetLossPct),
      AssetHealthFactor(inp.healthScore))
  }

  function ScoreComponents(inp: ScoreInput): real {
    FactorsOf(inp).AnomalyScore()
  }

  function PriorityForScore(score: real): Priority {
    var clamped := Clamp(score);
    if clamped >= 0.80 then Critical
    else if clamped >= 0.55 then High
    else if clamped >= 0.35 then Medium
    else Low
  }

  // ---------------------------------------------------------------- accuracy

  lemma SumsAgree(f: Factors)
    requires f.InUnit()
    ensures f.ExactSum() - 0.000003 <= f.RoundedSum() <= f.ExactSum() + 0.000003
    ensures 0.0 <= f.ExactSum() <= 1.0
  {
  }

  /** Seven roundings and a clamp never move the score by more than 5.3e-5, nor out of [0, 1]. */
  lemma ScoreAccuracy(inp: ScoreInput)
    ensures 0.0 <= ScoreComponents(inp) <= 1.0
    ensures var f := FactorsOf(inp);
            var exact := 0.40 * f.severity + 0.25 * f.magnitude + 0.15 * f.corroboration
                         + 0.10 * f.criticality + 0.05 * f.quality + 0.05 * f.health;
            exact == f.ExactSum() && exact - 0.000053 <= ScoreComponents(inp) <= exact + 0.000053
  {
    var f := FactorsOf(inp);
    SumsAgree(f);
    var total := Clamp(f.RoundedSum());
    assert f.ExactSum() - 0.000003 <= total <= f.ExactSum() + 0.000003;
    Rounding.RoundMonotone(0.0, total, FOUR);
    Rounding.RoundMonotone(total, 1.0, FOUR);
    Rounding.RoundFixes(0, 0.0, FOUR);
    Rounding.RoundFixes(10000, 1.0, FOUR);
  }

  // ---------------------------------------------------------------- what the factors mean

  /** A part of a whole, none below zero and all of it from the whole on. */
  ghost predicate IsShare(factor: real, part: real, whole: real) {
    if part <= 0.0 then factor == 0.0 else if part >= whole then factor == 1.0 else factor * whole == part
  }

  lemma ClampedShare(part: real, whole: real)
    requires whole > 0.0
    ensures IsShare(Clamp(part / whole), part, whole)
  {
    var q := part / whole;
    assert q * whole == part;
    if part <= 0.0 {
      assert q > 0.0 ==> q * whole > 0.0;
    } else if part >= whole {
      assert q < 1.0 ==> (1.0 - q) * whole > 0.0;
    } else {
      assert q >= 1.0 ==> (q - 1.0) * whole >= 0.0;
      assert q <= 0.0 ==> -q * whole >= 0.0;
    }
  }

  /**
    Each factor by its scale: magnitude is complete at twice the threshold, corroboration at three metrics, criticality at a
    score of three, packet loss at 20 percent, health at nothing left; an unknown value counts for nothing.
   */
  lemma FactorsMeaning(inp: ScoreInput)
    ensures var f := FactorsOf(inp);
            && IsShare(f.severity, inp.severityWeight, 1.0)
            && (inp.threshold > 0.0 ==> IsShare(f.magnitude, inp.observedRatio - inp.threshold, inp.threshold))
            && (inp.threshold <= 0.0 ==> f.magnitude == if inp.observedRatio > 0.0 then 1.0 else 0.0)
            && f.corroboration == (if inp.metricCount <= 1 then 0.0 else if inp.metricCount == 2 then 0.5 else 1.0)
            && IsShare(f.criticality, inp.criticalityScore.GetOr(0) as real, 3.0)
            && IsShare(f.quality, inp.packetLossPct.GetOr(0.0), 20.0)
            && IsShare(f.health, 100.0 - inp.healthScore.GetOr(100.0), 100.0)
  {
    if inp.threshold > 0.0 {
      ClampedShare(inp.observedRatio - inp.threshold, inp.threshold);
      ClampedShare(0.0, inp.threshold);
    }
    ClampedShare(inp.criticalityScore.GetOr(0) as real, 3.0);
    ClampedShare(inp.packetLossPct.GetOr(0.0), 20.0);
    ClampedShare(100.0 - inp.healthScore.GetOr(100.0), 100.0);
  }

  /** The four bands. */
  lemma PriorityBands(score: real)
    ensures PriorityForScore(score) == Critical <==> 0.80 <= score
    ensures PriorityForScore(score) == High <==> 0.55 <= score < 0.80
    ensures PriorityForScore(score) == Medium <==> 0.35 <= score < 0.55
    ensures PriorityForScore(score) == Low <==> score < 0.35
    ensures Low.Rank() < Medium.Rank() < High.Rank() < Critical.Rank()
  {
  }

  // ---------------------------------------------------------------- monotonicity

  lemma RoundedSumMonotone(f: Factors, g: Factors)
    requires f.AtMost(g)
    ensures f.RoundedSum() <= g.RoundedSum()
  {
    hide Rounding.RoundTo;
    Rounding.RoundMonotone(f.severity * W_SEVERITY, g.severity * W_SEVERITY, SIX);
    Rounding.RoundMonotone(f.magnitude * W_MAGNITUDE, g.magnitude * W_MAGNITUDE, SIX);
    Rounding.RoundMonotone(f.corroboration * W_CORROBORATION, g.corroboration * W_CORROBORATION, SIX);
    Rounding.RoundMonotone(f.criticality * W_CRITICALITY, g.criticality * W_CRITICALITY, SIX);
    Rounding.RoundMonotone(f.quality * W_QUALITY, g.quality * W_QUALITY, SIX);
    Rounding.RoundMonotone(f.health * W_HEALTH, g.health * W_HEALTH, SIX);
  }

  lemma AnomalyScoreMonotone(f: Factors, g: Factors)
    requires f.AtMost(g)
    ensures f.AnomalyScore() <= g.AnomalyScore()
  {
    RoundedSumMonotone(f, g);
    Rounding.RoundMonotone(Clamp(f.RoundedSum()), Clamp(g.RoundedSum()), FOUR);
  }

  lemma MagnitudeMonotone(a: real, b: real, threshold: real)
    requires a <= b
    ensures MagnitudeBeyondThreshold(a, threshold) <= MagnitudeBeyondThreshold(b, threshold)
  {
    if threshold > 0.0 {
      var ea := if a - threshold > 0.0 then a - threshold else 0.0;
      var eb := if b - threshold > 0.0 then b - threshold else 0.0;
      Rounding.DivideMonotone(ea, eb, threshold);
    }
  }

  /** `a` is nowhere a graver observation than `b`; an unknown value is never graver than a known one. */
  ghost predicate NoGraver(a: ScoreInput, b: ScoreInput) {
    && a.severityWeight <= b.severityWeight
    && a.threshold == b.threshold
    && a.observedRatio <= b.observedRatio
    && a.metricCount <= b.metricCount
    && (a.criticalityScore.None? || (b.criticalityScore.Some? && a.criticalityScore.value <= b.criticalityScore.value))
    && (a.packetLossPct.None? || (b.packetLossPct.Some? && a.packetLossPct.value <= b.packetLossPct.value))
    && (a.healthScore.None? || (b.healthScore.Some? && a.healthScore.value >= b.healthScore.value))
  }

  lemma CriticalityMonotone(a: Option<int>, b: Option<int>)
    requires a.None? || (b.Some? && a.value <= b.value)
    ensures CriticalityFactor(a) <= CriticalityFactor(b)
  {
    if a.Some? {
      Rounding.DivideMonotone(a.value as real, b.value as real, 3.0);
    }
  }

  lemma FactorsMonotone(a: ScoreInput, b: ScoreInput)
    requires NoGraver(a, b)
    ensures FactorsOf(a).AtMost(FactorsOf(b))
  {
    MagnitudeMonotone(a.observedRatio, b.observedRatio, a.threshold);
    CriticalityMonotone(a.criticalityScore, b.criticalityScore);
    assert CorroborationFactor(a.metricCount) <= CorroborationFactor(b.metricCount);
    assert TelemetryQualityFactor(a.packetLossPct) <= TelemetryQualityFactor(b.packetLossPct);
    assert AssetHealthFactor(a.healthScore) <= AssetHealthFactor(b.healthScore);
  }

  lemma PriorityMonotone(x: real, y: real)
    requires x <= y
    ensures PriorityForScore(x).Rank() <= PriorityForScore(y).Rank()
  {
  }

  /** The rounded score and the priority band never fall when the observation gets graver. */
  lemma ScoreAndPriorityMonotone(a: ScoreInput, b: ScoreInput)
    requires NoGraver(a, b)
    ensures ScoreComponents(a) <= ScoreComponents(b)
    ensures PriorityForScore(ScoreComponents(a)).Rank() <= PriorityForScore(ScoreComponents(b)).Rank()
  {
    FactorsMonotone(a, b);
    AnomalyScoreMonotone(FactorsOf(a), FactorsOf(b));
    PriorityMonotone(ScoreComponents(a), ScoreComponents(b));
  }

  // ---------------------------------------------------------------- bands

  /** Rounding cannot push a score across a four-digit bound its unrounded terms respect. */
  lemma ScoreAtLeast(f: Factors, k: int)
    requires f.InUnit() && 0 <= k <= 10000 && k as real / FOUR <= f.RoundedSum()
    ensures k as real / FOUR <= f.AnomalyScore()
  {
    hide Factors.RoundedSum, Rounding.RoundTo;
    var bound := k as real / FOUR;
    Rounding.RoundFixes(k, bound, FOUR);
    Rounding.RoundMonotone(bound, Clamp(f.RoundedSum()), FOUR);
  }

  lemma ScoreAtMost(f: Factors, k: int)
    requires f.InUnit() && 0 <= k <= 10000 && f.RoundedSum() <= k as real / FOUR
    ensures f.AnomalyScore() <= k as real / FOUR
  {
    hide Factors.RoundedSum, Rounding.RoundTo;
    var bound := k as real / FOUR;
    Rounding.RoundFixes(k, bound, FOUR);
    Rounding.RoundMonotone(Clamp(f.RoundedSum()), bound, FOUR);
  }
}
