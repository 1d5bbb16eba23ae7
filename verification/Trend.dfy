/**
  `risk.py`: trend, slope per minute and physical deviations of one telemetry window, and the timestamps
  `telemetry.py` reconstructs for simulated windows. Timestamps are reals in seconds.
 */
module Trend {
  import opened LeastSquares

  /** The abscissae 0, 1, ..., n-1. */
  function Indices(n: nat): (xs: seq<real>)
    ensures |xs| == n
    ensures forall i :: 0 <= i < n ==> xs[i] == i as real
  {
    seq(n, i requires 0 <= i < n => i as real)
  }

  lemma IndicesVary(n: nat)
    requires n >= 2
    ensures Varied(Indices(n)) && Increasing(Indices(n))
  {
    assert Indices(n)[0] != Indices(n)[1];
  }

  function Clamp01(v: real): real {
    if v < 0.0 then 0.0 else if v > 1.0 then 1.0 else v
  }

  function Sum(ys: seq<real>): real {
    if ys == [] then 0.0 else Sum(ys[..|ys| - 1]) + ys[|ys| - 1]
  }

  function Mean(ys: seq<real>): real
    requires ys != []
  {
    Sum(ys) / |ys| as real
  }

  /** Squared deviations from the mean: the error of the horizontal line through it. */
  function TotalSquares(ys: seq<real>): real
    requires ys != []
  {
    SquaredError(Indices(|ys|), ys, Line(0.0, Mean(ys)))
  }

  function IndexFit(ys: seq<real>): Line
    requires |ys| >= 2
  {
    IndicesVary(|ys|);
    Fit(Indices(|ys|), ys)
  }

  function ResidualSquares(ys: seq<real>): real
    requires |ys| >= 2
  {
    SquaredError(Indices(|ys|), ys, IndexFit(ys))
  }

  /** R squared before the code clamps it into [0, 1]. */
  function RawRSquared(ys: seq<real>): real
    requires |ys| >= 2
  {
    var total := TotalSquares(ys);
    if total > 0.0 then 1.0 - ResidualSquares(ys) / total else 1.0
  }

  datatype TrendResult = TrendResult(slope: real, rSquared: real)

  function ComputeTrend(readings: seq<real>): TrendResult {
    if |readings| < 2 then TrendResult(0.0, 1.0)
    else TrendResult(IndexFit(readings).slope, Clamp01(RawRSquared(readings)))
  }

  // ---------------------------------------------------------------- what R squared means

  lemma QuotientInUnit(a: real, b: real)
    requires 0.0 <= a <= b && b > 0.0
    ensures 0.0 <= a / b <= 1.0
    ensures a / b == 0.0 <==> a == 0.0
  {
    assert a / b * b == a;
  }

  /**
    The fitted line leaves no more error than the mean does, so R squared is in [0, 1] as it stands and the
    clamp changes nothing.
   */
  lemma ClampChangesNothing(readings: seq<real>)
    requires |readings| >= 2
    ensures 0.0 <= ResidualSquares(readings) <= TotalSquares(readings)
    ensures 0.0 <= RawRSquared(readings) <= 1.0
    ensures ComputeTrend(readings).rSquared == RawRSquared(readings)
  {
    hide SquaredError, Fit, Mean;
    IndicesVary(|readings|);
    FitIsTheMinimiser(Indices(|readings|), readings, Line(0.0, Mean(readings)));
    if TotalSquares(readings) > 0.0 {
      QuotientInUnit(ResidualSquares(readings), TotalSquares(readings));
    }
  }

  /** No other straight line over the reading index comes closer than the reported trend. */
  lemma {:induction false} TrendMinimisesError(readings: seq<real>, l: Line)
    requires |readings| >= 2
    ensures SquaredError(Indices(|readings|), readings, IndexFit(readings)) <= SquaredError(Indices(|readings|), readings, l)
    ensures ComputeTrend(readings).slope == IndexFit(readings).slope
  {
    hide SquaredError, Fit;
    IndicesVary(|readings|);
    FitIsTheMinimiser(Indices(|readings|), readings, l);
  }

  /** A perfect R squared is reported exactly for series that lie on a line, and then with that line's slope. */
  lemma PerfectFitIffLine(readings: seq<real>)
    requires |readings| >= 2
    ensures ComputeTrend(readings).rSquared == 1.0
       <==> exists l: Line :: OnLine(Indices(|readings|), readings, l)
    ensures forall l: Line :: OnLine(Indices(|readings|), readings, l) ==> ComputeTrend(readings).slope == l.slope
  {
    hide SquaredError, Fit, OnLine, Mean;
    var xs := Indices(|readings|);
    var fit := IndexFit(readings);
    var residual, total := ResidualSquares(readings), TotalSquares(readings);
    IndicesVary(|readings|);
    ClampChangesNothing(readings);
    NoErrorIffOnLine(xs, readings, fit);
    NoErrorIffOnLine(xs, readings, Line(0.0, Mean(readings)));
    if total > 0.0 {
      QuotientInUnit(residual, total);
    }
    forall l: Line | OnLine(xs, readings, l) ensures fit == l && residual == 0.0 {
      AffineIsFitted(xs, readings, l);
    }
  }

  lemma {:induction false} SumIsMoment(xs: seq<real>, ys: seq<real>)
    requires |xs| == |ys|
    ensures Sum(ys) == Sums(xs, ys).sy
  {
    if ys != [] {
      SumIsMoment(xs[..|ys| - 1], ys[..|ys| - 1]);
    }
  }

  lemma MeanTimesCount(ys: seq<real>)
    requires ys != []
    ensures Mean(ys) * |ys| as real == Sum(ys)
  {
  }

  lemma ShareOfTotal(n: real, total: real, residual: real, deviation: real, slope: real, cross: real, spread: real)
    requires n > 0.0 && total > 0.0
    requires n * total == deviation && n * residual == deviation - slope * cross && slope * spread == cross
    ensures (1.0 - residual / total) * spread * deviation == cross * cross
  {
    var r := 1.0 - residual / total;
    assert residual / total * total == residual;
    assert r * total == total - residual;
    assert r * deviation == n * (r * total) == slope * cross;
    assert r * spread * deviation == (r * deviation) * spread;
    assert (slope * cross) * spread == cross * cross;
  }

  /**
    R squared is the squared correlation of the readings with their index, and 1 for a series without any variation: it is
    the share of the readings' deviation that the trend explains.
   */
  lemma RSquaredIsSquaredCorrelation(readings: seq<real>)
    requires |readings| >= 2
    ensures var m, r := Sums(Indices(|readings|), readings), ComputeTrend(readings).rSquared;
            if Varied(readings) then
              Spread(m) > 0.0 && Deviation(m) > 0.0 && r * Spread(m) * Deviation(m) == Cross(m) * Cross(m)
            else r == 1.0
    ensures var r := ComputeTrend(readings).rSquared;
            Varied(readings) ==> r * TotalSquares(readings) == TotalSquares(readings) - ResidualSquares(readings)
  {
    hide Sums, Cross, Spread, Deviation, OnLine, TotalSquares, ResidualSquares, IndexFit;
    ClampChangesNothing(readings);
    if Varied(readings) {
      ExplainedShare(readings);
      var total, residual := TotalSquares(readings), ResidualSquares(readings);
      assert residual / total * total == residual;
    } else {
      ConstantIsLine(Indices(|readings|), readings);
      PerfectFitIffLine(readings);
    }
  }

  lemma ExplainedShare(readings: seq<real>)
    requires |readings| >= 2 && Varied(readings)
    ensures var m := Sums(Indices(|readings|), readings);
            && Spread(m) > 0.0 && Deviation(m) > 0.0 && TotalSquares(readings) > 0.0
            && (1.0 - ResidualSquares(readings) / TotalSquares(readings)) * Spread(m) * Deviation(m) == Cross(m) * Cross(m)
  {
    hide Sums, Quadratic, SquaredError, Cross, Spread, Deviation, Mean, Sum, Varied;
    var n, xs := |readings|, Indices(|readings|);
    var m, fit, flat := Sums(xs, readings), IndexFit(readings), Line(0.0, Mean(readings));
    IndicesVary(n);
    SpreadPositive(xs, readings);
    DeviationPositive(xs, readings);
    SumIsMoment(xs, readings);
    MeanTimesCount(readings);
    ErrorIsQuadratic(xs, readings, fit);
    ErrorIsQuadratic(xs, readings, flat);
    FitLeaves(m);
    MeanLeaves(m, Mean(readings));
    PositiveFactor(m.n, TotalSquares(readings));
    ShareOfTotal(m.n, TotalSquares(readings), ResidualSquares(readings), Deviation(m), fit.slope, Cross(m), Spread(m));
  }

  lemma PositiveFactor(n: real, total: real)
    requires n > 0.0 && n * total > 0.0
    ensures total > 0.0
  {
  }

  lemma ConstantIsLine(xs: seq<real>, ys: seq<real>)
    requires |xs| == |ys| >= 1 && !Varied(ys)
    ensures OnLine(xs, ys, Line(0.0, ys[0]))
  {
    forall i | 0 <= i < |ys| ensures Residual(xs[i], ys[i], Line(0.0, ys[0])) == 0.0 {
      assert i == 0 || ys[0] == ys[i];
    }
  }

  /** A window that never rises and ends lower than it began has a strictly negative trend. */
  lemma FallingTrend(readings: seq<real>)
    requires |readings| >= 2 && NonIncreasing(readings) && readings[0] > readings[|readings| - 1]
    ensures ComputeTrend(readings).slope < 0.0
  {
    hide Fit;
    IndicesVary(|readings|);
    FallingSlope(Indices(|readings|), readings);
  }

  // ---------------------------------------------------------------- slope per minute

  /** Minutes since the first reading, or the assumed 0.4 s spacing when the timestamps span next to nothing. */
  function MinutesOf(times: seq<real>): (ms: seq<real>)
    requires |times| >= 2
    ensures |ms| == |times|
  {
    var n := |times|;
    if times[n - 1] - times[0] > 0.01 then seq(n, i requires 0 <= i < n => (times[i] - times[0]) / 60.0)
    else seq(n, i requires 0 <= i < n => i as real * (0.4 / 60.0))
  }

  lemma MinutesVary(times: seq<real>)
    requires |times| >= 2
    ensures MinutesOf(times)[|times| - 1] > 0.0
    ensures Varied(MinutesOf(times))
  {
    var ms, n := MinutesOf(times), |times|;
    assert ms[0] == 0.0 && ms[n - 1] > 0.0;
    assert ms[0] != ms[n - 1];
  }

  function SlopePerMinute(times: seq<real>, values: seq<real>): real
    requires |times| == |values|
  {
    if |times| < 2 then 0.0
    else
      MinutesVary(times);
      if MinutesOf(times)[|times| - 1] <= 0.0 then 0.0
      else Fit(MinutesOf(times), values).slope
  }

  ghost predicate Shifted(times: seq<real>, later: seq<real>, c: real) {
    |later| == |times| && forall i :: 0 <= i < |times| ==> later[i] == times[i] + c
  }

  /** Only time differences matter: the wall clock the window was taken at does not. */
  lemma SlopeIgnoresOrigin(times: seq<real>, later: seq<real>, values: seq<real>, c: real)
    requires |times| == |values| && Shifted(times, later, c)
    ensures SlopePerMinute(later, values) == SlopePerMinute(times, values)
  {
    hide Fit;
    if |times| >= 2 {
      assert MinutesOf(later) == MinutesOf(times);
    }
  }

  ghost predicate EverySoManyMinutes(times: seq<real>, d: real) {
    forall i :: 0 <= i < |times| ==> times[i] == times[0] + 60.0 * (d * i as real)
  }

  lemma MinutesOfEvenSpacing(times: seq<real>, d: real)
    requires |times| >= 2 && EverySoManyMinutes(times, d)
    requires times[|times| - 1] - times[0] > 0.01
    ensures Rescaled(Indices(|times|), MinutesOf(times), d, 0.0) && d != 0.0
  {
    forall i | 0 <= i < |times| ensures MinutesOf(times)[i] == d * Indices(|times|)[i] + 0.0 {
      SecondsToMinutes(times[0], times[i], d * i as real);
    }
    LastOffset(d, |times| - 1, times[0], times[|times| - 1]);
  }

  lemma SecondsToMinutes(origin: real, time: real, minutes: real)
    requires time == origin + 60.0 * minutes
    ensures (time - origin) / 60.0 == minutes
  {
  }

  lemma LastOffset(d: real, n: nat, origin: real, last: real)
    requires last == origin + 60.0 * (d * n as real) && last - origin > 0.01
    ensures d != 0.0
  {
    assert d == 0.0 ==> d * n as real == 0.0;
  }

  /** For evenly spaced readings the per-minute slope is the trend's index slope over the spacing. */
  lemma EvenSpacing(times: seq<real>, values: seq<real>, d: real)
    requires |times| == |values| >= 2 && EverySoManyMinutes(times, d)
    requires times[|times| - 1] - times[0] > 0.01
    ensures d != 0.0 && SlopePerMinute(times, values) == ComputeTrend(values).slope / d
  {
    hide Fit, Varied, Rescaled, EverySoManyMinutes;
    MinutesOfEvenSpacing(times, d);
    IndicesVary(|times|);
    MinutesVary(times);
    SlopeRescales(Indices(|times|), MinutesOf(times), values, d, 0.0);
  }

  /** Timestamps that span at most 10 ms are replaced by a 0.4 s grid: 150 readings to the minute. */
  lemma DegenerateSpan(times: seq<real>, values: seq<real>)
    requires |times| == |values| >= 2 && times[|times| - 1] - times[0] <= 0.01
    ensures SlopePerMinute(times, values) == 150.0 * ComputeTrend(values).slope
  {
    hide Fit, Varied;
    var xs, ms := Indices(|times|), MinutesOf(times);
    var c := 1.0 / 150.0;
    forall i | 0 <= i < |times| ensures ms[i] == c * xs[i] + 0.0 {
    }
    IndicesVary(|times|);
    MinutesVary(times);
    assert Rescaled(xs, ms, c, 0.0);
    SlopeRescales(xs, ms, values, c, 0.0);
  }

  /** Over readings at any times spanning more than 10 ms, no line over the minutes since the first one fits better. */
  lemma PerMinuteMinimisesError(times: seq<real>, values: seq<real>, minutes: seq<real>, l: Line)
    requires |times| == |values| == |minutes| >= 2 && times[|times| - 1] - times[0] > 0.01
    requires forall i :: 0 <= i < |times| ==> times[i] == times[0] + 60.0 * minutes[i]
    ensures exists b :: SquaredError(minutes, values, Line(SlopePerMinute(times, values), b)) <= SquaredError(minutes, values, l)
  {
    hide SquaredError, Fit, Varied;
    MinutesVary(times);
    assert minutes == MinutesOf(times) by {
      forall i | 0 <= i < |times| ensures minutes[i] == MinutesOf(times)[i] {
        SecondsToMinutes(times[0], times[i], minutes[i]);
      }
    }
    FitIsTheMinimiser(minutes, values, l);
    var fit := Fit(minutes, values);
    assert fit == Line(SlopePerMinute(times, values), fit.intercept);
    assert SquaredError(minutes, values, Line(SlopePerMinute(times, values), fit.intercept)) <= SquaredError(minutes, values, l);
  }

  /** A falling window also falls per minute, whatever its (increasing) timestamps are. */
  lemma FallingPerMinute(times: seq<real>, values: seq<real>)
    requires |times| == |values| >= 2 && Increasing(times)
    requires NonIncreasing(values) && values[0] > values[|values| - 1]
    ensures SlopePerMinute(times, values) < 0.0
  {
    hide Fit;
    var ms := MinutesOf(times);
    MinutesVary(times);
    forall i, j | 0 <= i < j < |ms| ensures ms[i] < ms[j] {
      assert times[i] < times[j];
    }
    FallingSlope(ms, values);
  }

  // ---------------------------------------------------------------- simulated windows

  /** One reading a minute, ending now. */
  method ReconstructTimes(now: real, n: nat) returns (times: seq<real>)
    ensures |times| == n
    ensures n > 0 ==> times[n - 1] == now
    ensures EverySoManyMinutes(times, 1.0)
  {
    times := [];
    for i := 0 to n
      invariant |times| == i
      invariant forall k :: 0 <= k < i ==> times[k] == now - 60.0 * (n - 1 - k) as real
    {
      times := times + [now - 60.0 * (n - 1 - i) as real];
    }
  }

  /** On a window built by the simulator the per-minute slope is the index slope itself. */
  lemma SimulatedSlopeIsIndexSlope(times: seq<real>, values: seq<real>)
    requires |times| == |values| >= 2 && EverySoManyMinutes(times, 1.0)
    ensures SlopePerMinute(times, values) == ComputeTrend(values).slope
  {
    hide Fit;
    assert times[|times| - 1] == times[0] + 60.0 * (1.0 * (|times| - 1) as real);
    EvenSpacing(times, values, 1.0);
  }

  // ---------------------------------------------------------------- physical deviations

  datatype Reading = Reading(time: real, pressurePsi: real, flowLps: real)

  function Times(rs: seq<Reading>): (s: seq<real>)
    ensures |s| == |rs| && forall i :: 0 <= i < |rs| ==> s[i] == rs[i].time
  {
    seq(|rs|, i requires 0 <= i < |rs| => rs[i].time)
  }

  function Pressures(rs: seq<Reading>): (s: seq<real>)
    ensures |s| == |rs| && forall i :: 0 <= i < |rs| ==> s[i] == rs[i].pressurePsi
  {
    seq(|rs|, i requires 0 <= i < |rs| => rs[i].pressurePsi)
  }

  function Flows(rs: seq<Reading>): (s: seq<real>)
    ensures |s| == |rs| && forall i :: 0 <= i < |rs| ==> s[i] == rs[i].flowLps
  {
    seq(|rs|, i requires 0 <= i < |rs| => rs[i].flowLps)
  }

  /** Change from `first` to `last` in percent of `first`; zero when there is nothing to compare with. */
  function PercentOf(first: real, change: real): real {
    if first != 0.0 then change / first * 100.0 else 0.0
  }

  /** The changed value is the first one changed by so many percent of it. */
  lemma PercentOfMeaning(first: real, change: real)
    ensures first != 0.0 ==> PercentOf(first, change) / 100.0 * first == change
    ensures first == 0.0 ==> PercentOf(first, change) == 0.0
  {
    if first != 0.0 {
      assert change / first * first == change;
    }
  }

  /** The fields of the investigation state that the first risk step fills in. */
  class InvestigationState {
    const readings: seq<Reading>
    var pressureDropPct: real
    var flowSurgePct: real
    var pressureSlope: real
    var flowSlope: real
    var trendRSquared: real

    constructor (readings: seq<Reading>)
      ensures this.readings == readings
    {
      this.readings := readings;
      pressureDropPct, flowSurgePct, pressureSlope, flowSlope, trendRSquared := 0.0, 0.0, 0.0, 0.0, 0.0;
    }

    /** A window without readings leaves every field as it was. */
    method ComputePhysicalDeviations()
      modifies this
      ensures readings == [] ==> unchanged(this)
      ensures readings != [] ==>
                var n := |readings| - 1;
                && pressureDropPct == PercentOf(readings[0].pressurePsi, readings[0].pressurePsi - readings[n].pressurePsi)
                && flowSurgePct == PercentOf(readings[0].flowLps, readings[n].flowLps - readings[0].flowLps)
                && pressureSlope == SlopePerMinute(Times(readings), Pressures(readings))
                && flowSlope == SlopePerMinute(Times(readings), Flows(readings))
                && trendRSquared == ComputeTrend(Pressures(readings)).rSquared
    {
      if readings == [] {
        return;
      }
      var ps, qs := Pressures(readings), Flows(readings);
      var n := |readings| - 1;
      pressureDropPct := PercentOf(ps[0], ps[0] - ps[n]);
      flowSurgePct := PercentOf(qs[0], qs[n] - qs[0]);
      pressureSlope := SlopePerMinute(Times(readings), ps);
      flowSlope := SlopePerMinute(Times(readings), qs);
      trendRSquared := ComputeTrend(ps).rSquared;
    }
  }

  /** A positive pressure that only falls shows as a drop and as a negative slope, with R squared in [0, 1]. */
  lemma FallingPressureIsSeen(rs: seq<Reading>)
    requires |rs| >= 2 && Increasing(Times(rs)) && NonIncreasing(Pressures(rs))
    requires rs[0].pressurePsi > rs[|rs| - 1].pressurePsi && rs[0].pressurePsi > 0.0
    ensures PercentOf(rs[0].pressurePsi, rs[0].pressurePsi - rs[|rs| - 1].pressurePsi) > 0.0
    ensures SlopePerMinute(Times(rs), Pressures(rs)) < 0.0
    ensures 0.0 <= ComputeTrend(Pressures(rs)).rSquared <= 1.0
  {
    hide Fit, SlopePerMinute, ComputeTrend;
    PositiveQuotient(rs[0].pressurePsi - rs[|rs| - 1].pressurePsi, rs[0].pressurePsi);
    FallingPerMinute(Times(rs), Pressures(rs));
    ClampChangesNothing(Pressures(rs));
  }

  lemma PositiveQuotient(a: real, b: real)
    requires a > 0.0 && b > 0.0
    ensures a / b > 0.0
  {
  }
}
