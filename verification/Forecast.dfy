/** Predicting when a metric reaches a threshold: fit a line to the hourly averages and follow it. */
module Forecast {
  import opened Reals
  import opened Regression

  /** An hourly average at a time measured in hours. */
  datatype Point = Point(t: real, v: real)

  /** A hit within a day is worded as a warning. */
  datatype Verdict = Flat | AlreadyExceeds | MovingAway | Hits(hours: real, warning: bool)

  datatype Result =
    | Insufficient(points: nat)
    | Prediction(current: real, trend: real, r2: real, verdict: Verdict)

  const MIN_POINTS := 3

  function HoursSince(points: seq<Point>, base: real): (xs: Vector)
    ensures |xs| == |points|
  {
    seq(|points|, i requires 0 <= i < |points| => points[i].t - base)
  }

  function Values(points: seq<Point>): (ys: Vector)
    ensures |ys| == |points|
  {
    seq(|points|, i requires 0 <= i < |points| => points[i].v)
  }

  /** Height of the fitted line at x. */
  function At(f: Fit, x: real): real {
    f.intercept + Times(f.slope, x)
  }

  function VerdictOf(f: Fit, x: real, current: real, threshold: real): Verdict {
    if f.slope == 0.0 then Flat
    else
      var hours := (threshold - At(f, x)) / f.slope;
      if hours > 0.0 then Hits(hours, hours < 24.0)
      else if current >= threshold then AlreadyExceeds
      else MovingAway
  }

  /** The verdict as reported, with the hours rounded. */
  function Reported(v: Verdict): Verdict {
    if v.Hits? then v.(hours := Round2(v.hours)) else v
  }

  function ForecastOf(points: seq<Point>, threshold: real, base: real): Result {
    if |points| < MIN_POINTS then Insufficient(|points|)
    else
      var xs, ys := HoursSince(points, base), Values(points);
      var f := FitOf(xs, ys);
      var last := |points| - 1;
      var verdict := VerdictOf(f, xs[last], ys[last], threshold);
      Prediction(Round2(ys[last]), Round2(f.slope), Round2(f.r2), Reported(verdict))
  }

  method HandleForecast(points: seq<Point>, threshold: real) returns (r: Result)
    ensures r == ForecastOf(points, threshold, if points == [] then 0.0 else points[0].t)
  {
    if |points| < MIN_POINTS {
      return Insufficient(|points|);
    }
    var baseTime := points[0].t;
    var xs, ys := new real[|points|], new real[|points|];
    for i := 0 to |points|
      invariant forall k :: 0 <= k < i ==> xs[k] == points[k].t - baseTime && ys[k] == points[k].v
    {
      xs[i] := points[i].t - baseTime;
      ys[i] := points[i].v;
    }
    assert xs[..] == HoursSince(points, baseTime) && ys[..] == Values(points);

    var slope, intercept, r2 := LinearRegression(xs[..], ys[..]);
    var currentVal := ys[ys.Length - 1];
    var currentHours := xs[xs.Length - 1];
    var verdict := Judge(Fit(slope, intercept.v, r2), currentHours, currentVal, threshold);
    return Prediction(Round2(currentVal), Round2(slope), Round2(r2), Reported(verdict));
  }

  method Judge(f: Fit, currentHours: real, currentVal: real, threshold: real) returns (verdict: Verdict)
    ensures verdict == VerdictOf(f, currentHours, currentVal, threshold)
  {
    if f.slope == 0.0 {
      return Flat;
    }
    var hoursToThreshold := (threshold - (f.intercept + Times(f.slope, currentHours))) / f.slope;
    if hoursToThreshold <= 0.0 {
      if currentVal >= threshold {
        return AlreadyExceeds;
      } else {
        return MovingAway;
      }
    } else {
      return Hits(hoursToThreshold, hoursToThreshold < 24.0);
    }
  }

  // ---------------------------------------------------------------- what the prediction means

  /** The fitted line meets the threshold h hours after x. */
  ghost predicate Meets(f: Fit, x: real, threshold: real, h: real) {
    At(f, x + h) == threshold
  }

  lemma {:induction false} CrossingEquation(f: Fit, x: real, threshold: real, h: real)
    requires f.slope != 0.0
    ensures Meets(f, x, threshold, h) <==> h == (threshold - At(f, x)) / f.slope
  {
    Distribute(f.slope, x, h);
    var gap := threshold - At(f, x);
    Quotient(gap, f.slope);
    Commute(gap / f.slope, f.slope);
    if Times(f.slope, h) == gap {
      Distribute(f.slope, h, gap / f.slope);
      Commute(f.slope, h - gap / f.slope);
      ZeroProduct(h - gap / f.slope, f.slope);
    }
  }

  /** A hit is predicted exactly when a sloping line meets the threshold in the future, and at that hour. */
  lemma {:induction false} HitIsFutureCrossing(f: Fit, x: real, current: real, threshold: real)
    ensures VerdictOf(f, x, current, threshold).Hits?
       <==> f.slope != 0.0 && exists h: real :: h > 0.0 && Meets(f, x, threshold, h)
    ensures VerdictOf(f, x, current, threshold).Hits? ==>
              forall h: real :: Meets(f, x, threshold, h) <==> h == VerdictOf(f, x, current, threshold).hours
  {
    if f.slope != 0.0 {
      var hours := (threshold - At(f, x)) / f.slope;
      forall h: real ensures Meets(f, x, threshold, h) <==> h == hours {
        CrossingEquation(f, x, threshold, h);
      }
      assert Meets(f, x, threshold, hours);
    }
  }

  /** The line meets the threshold at some time within the next h hours, or at some time at all. */
  ghost predicate MeetsWithin(f: Fit, x: real, threshold: real, hours: real) {
    exists h: real :: 0.0 < h < hours && Meets(f, x, threshold, h)
  }

  ghost predicate MeetsAhead(f: Fit, x: real, threshold: real) {
    exists h: real :: h > 0.0 && Meets(f, x, threshold, h)
  }

  /** Each verdict, told from the line and the current value: a flat line is flat; a sloping one that meets the
      threshold ahead hits it, with a warning within a day; one that does not has a metric at or above the threshold,
      or one that moves away from it. */
  lemma {:induction false} VerdictMeaning(f: Fit, x: real, current: real, threshold: real)
    ensures var v := VerdictOf(f, x, current, threshold);
            && (v == Flat <==> f.slope == 0.0)
            && (v.Hits? <==> f.slope != 0.0 && MeetsAhead(f, x, threshold))
            && (v == AlreadyExceeds <==> f.slope != 0.0 && !MeetsAhead(f, x, threshold) && current >= threshold)
            && (v == MovingAway <==> f.slope != 0.0 && !MeetsAhead(f, x, threshold) && current < threshold)
            && (v.Hits? ==> Meets(f, x, threshold, v.hours) && v.hours > 0.0)
            && (v.Hits? ==> (v.warning <==> MeetsWithin(f, x, threshold, 24.0)))
  {
    HitIsFutureCrossing(f, x, current, threshold);
    var v := VerdictOf(f, x, current, threshold);
    if v.Hits? {
      assert Meets(f, x, threshold, v.hours);
      if v.hours < 24.0 {
        assert 0.0 < v.hours < 24.0 && Meets(f, x, threshold, v.hours);
      }
    }
  }

  /** The whole answer for a list of points: fewer than three are too few; otherwise the last value, the slope and r
      squared of the least-squares line through the points, rounded, and the verdict on that line at the last point. */
  lemma {:induction false} ForecastMeaning(points: seq<Point>, threshold: real, base: real)
    ensures |points| < 3 ==> ForecastOf(points, threshold, base) == Insufficient(|points|)
    ensures |points| >= 3 ==>
              var xs, ys := HoursSince(points, base), Values(points);
              var f, last := FitOf(xs, ys), points[|points| - 1];
              var r := ForecastOf(points, threshold, base);
              var x := last.t - base;
              && r.Prediction? && r.current == Round2(last.v) && r.trend == Round2(f.slope) && r.r2 == Round2(f.r2)
              && (r.verdict == Flat <==> f.slope == 0.0)
              && (r.verdict.Hits? <==> f.slope != 0.0 && MeetsAhead(f, x, threshold))
              && (r.verdict == AlreadyExceeds
                  <==> f.slope != 0.0 && !MeetsAhead(f, x, threshold) && last.v >= threshold)
              && (r.verdict == MovingAway
                  <==> f.slope != 0.0 && !MeetsAhead(f, x, threshold) && last.v < threshold)
              && (r.verdict.Hits? ==> r.verdict.warning == MeetsWithin(f, x, threshold, 24.0))
              && (r.verdict.Hits? ==>
                    exists h: real :: h > 0.0 && Meets(f, x, threshold, h) && r.verdict.hours == Round2(h))
  {
    if |points| >= 3 {
      var f := FitOf(HoursSince(points, base), Values(points));
      var last := points[|points| - 1];
      var v := VerdictOf(f, last.t - base, last.v, threshold);
      VerdictMeaning(f, last.t - base, last.v, threshold);
      ReportKeeps(v);
    }
  }

  lemma {:induction false} ReportKeeps(v: Verdict)
    ensures Reported(v).Hits? <==> v.Hits?
    ensures !v.Hits? ==> Reported(v) == v
    ensures v.Hits? ==> Reported(v).hours == Round2(v.hours) && Reported(v).warning == v.warning
  {
  }

  /** The prediction does not depend on the base time the hours are counted from. */
  lemma {:induction false} BaseTimeDoesNotMatter(points: seq<Point>, threshold: real, base: real, other: real)
    ensures ForecastOf(points, threshold, base) == ForecastOf(points, threshold, other)
  {
    if |points| >= MIN_POINTS {
      var xs, us, ys := HoursSince(points, base), HoursSince(points, other), Values(points);
      var c, last := other - base, |points| - 1;
      assert us == Shifted(xs, c);
      ShiftInvariant(xs, ys, c);
      var f, g := FitOf(xs, ys), FitOf(us, ys);
      Distribute(f.slope, xs[last], c);
      assert At(g, us[last]) == At(f, xs[last]);
    }
  }
}
