/** Z-score anomalies: a group's latest value against the mean and population deviation of its window. */
module Anomaly {
  import opened Reals
  import opened Regression

  datatype Key = Key(context: string, dimension: string, instance: string)
  datatype Sample = Sample(at: int, value: real)

  /** One row of the grouping query, or a row that could not be scanned. */
  datatype Row = Row(key: Key, mean: real, stddev: real, latest: real) | Unreadable

  datatype Direction = High | Low
  datatype Finding = Finding(
    key: Key, latest: real, mean: real, stddev: real, zScore: real, direction: Direction)

  // ---------------------------------------------------------------- the grouping query

  function Values(samples: seq<Sample>): (vs: Vector)
    ensures |vs| == |samples|
  {
    seq(|samples|, i requires 0 <= i < |samples| => samples[i].value)
  }

  /** The values measured from their mean. */
  function Deviations(vs: Vector): (w: Vector)
    requires |vs| > 0
    ensures |w| == |vs|
  {
    Line(vs, 1.0, -Mean(vs))
  }

  /** `STDDEV_POP` squared. */
  function Variance(vs: Vector): real
    requires |vs| > 0
  {
    Dot(Deviations(vs), Deviations(vs)) / |vs| as real
  }

  const MIN_GROUP := 5

  /** The row the query returns for a group it admits. */
  ghost predicate Describes(row: Row, samples: seq<Sample>) {
    && row.Row?
    && |samples| >= MIN_GROUP
    && row.mean == Mean(Values(samples))
    && row.stddev > 0.0 && Times(row.stddev, row.stddev) == Variance(Values(samples))
    && exists k :: LatestAt(row, samples, k)
  }

  ghost predicate LatestAt(row: Row, samples: seq<Sample>, k: nat)
    requires row.Row?
  {
    k < |samples| && row.latest == samples[k].value && forall j :: 0 <= j < |samples| ==> samples[j].at <= samples[k].at
  }

  // ---------------------------------------------------------------- the handler

  function Abs(x: real): real {
    if x < 0.0 then -x else x
  }

  function ZScore(row: Row): real
    requires row.Row? && row.stddev != 0.0
  {
    (row.latest - row.mean) / row.stddev
  }

  predicate Flagged(row: Row, threshold: real) {
    row.Row? && row.stddev != 0.0 && Abs(ZScore(row)) >= threshold
  }

  function FindingOf(row: Row): Finding
    requires row.Row? && row.stddev != 0.0
  {
    Finding(row.key, Round2(row.latest), Round2(row.mean), Round2(row.stddev), Round2(ZScore(row)),
            if ZScore(row) > 0.0 then High else Low)
  }

  function Findings(rows: seq<Row>, threshold: real): seq<Finding> {
    if rows == [] then []
    else
      var last := rows[|rows| - 1];
      Findings(rows[..|rows| - 1], threshold) + if Flagged(last, threshold) then [FindingOf(last)] else []
  }

  predicate Ranked(fs: seq<Finding>) {
    forall i, j :: 0 <= i < j < |fs| ==> Abs(fs[i].zScore) >= Abs(fs[j].zScore)
  }

  /** Sorting by descending score. The order among equal scores is not promised. */
  method SortByScore(fs: seq<Finding>) returns (sorted: seq<Finding>)
    ensures multiset(sorted) == multiset(fs) && Ranked(sorted)
  {
    sorted := [];
    for n := 0 to |fs|
      invariant multiset(sorted) == multiset(fs[..n]) && Ranked(sorted)
    {
      assert fs[..n + 1] == fs[..n] + [fs[n]];
      sorted := InsertByScore(sorted, fs[n]);
    }
    assert fs[..|fs|] == fs;
  }

  method InsertByScore(sorted: seq<Finding>, f: Finding) returns (more: seq<Finding>)
    requires Ranked(sorted)
    ensures multiset(more) == multiset(sorted) + multiset{f} && Ranked(more)
  {
    var i := |sorted|;
    while i > 0 && Abs(sorted[i - 1].zScore) < Abs(f.zScore)
      invariant 0 <= i <= |sorted|
      invariant forall k :: i <= k < |sorted| ==> Abs(sorted[k].zScore) < Abs(f.zScore)
    {
      i := i - 1;
    }
    InsertRanked(sorted, f, i);
    OneMore(sorted, f, i);
    return sorted[..i] + [f] + sorted[i..];
  }

  lemma {:induction false} OneMore(sorted: seq<Finding>, f: Finding, i: nat)
    requires i <= |sorted|
    ensures multiset(sorted[..i] + [f] + sorted[i..]) == multiset(sorted) + multiset{f}
  {
    assert sorted[..i] + sorted[i..] == sorted;
  }

  lemma {:induction false} InsertRanked(sorted: seq<Finding>, f: Finding, i: nat)
    requires Ranked(sorted) && i <= |sorted|
    requires i > 0 ==> Abs(sorted[i - 1].zScore) >= Abs(f.zScore)
    requires forall k :: i <= k < |sorted| ==> Abs(sorted[k].zScore) < Abs(f.zScore)
    ensures Ranked(sorted[..i] + [f] + sorted[i..])
  {
    var r := sorted[..i] + [f] + sorted[i..];
    forall a, b | 0 <= a < b < |r| ensures Abs(r[a].zScore) >= Abs(r[b].zScore) {
      assert r[a] == if a < i then sorted[a] else if a == i then f else sorted[a - 1];
      assert r[b] == if b < i then sorted[b] else if b == i then f else sorted[b - 1];
      if a < i && b == i {
        assert Abs(sorted[a].zScore) >= Abs(sorted[i - 1].zScore);
      }
    }
  }

  /** What a caller gets: the highest scores of a ranking of all findings. */
  ghost predicate IsTop(top: seq<Finding>, all: seq<Finding>, limit: nat) {
    exists rest: seq<Finding> ::
      && multiset(top + rest) == multiset(all) && Ranked(top + rest)
      && |top| == if |all| <= limit then |all| else limit
  }

  method DetectAnomalies(rows: seq<Row>, thresholdArg: real, limitArg: real)
    returns (top: seq<Finding>, totalChecked: nat)
    requires forall r :: r in rows && r.Row? ==> r.stddev > 0.0
    ensures totalChecked == |rows|
    ensures IsTop(top, Findings(rows, if thresholdArg > 0.0 then thresholdArg else 2.5),
                  if limitArg > 0.0 then limitArg.Floor else 20)
  {
    var threshold := 2.5;
    if thresholdArg > 0.0 {
      threshold := thresholdArg;
    }
    var limit: nat := 20;
    if limitArg > 0.0 {
      limit := limitArg.Floor;
    }
    var anomalies: seq<Finding> := [];
    totalChecked := 0;
    for i := 0 to |rows|
      invariant totalChecked == i && anomalies == Findings(rows[..i], threshold)
    {
      assert rows[..i + 1][..i] == rows[..i];
      totalChecked := totalChecked + 1;
      var row := rows[i];
      if row.Row? {
        assert row in rows;
        var zScore := (row.latest - row.mean) / row.stddev;
        if Abs(zScore) >= threshold {
          var direction := Low;
          if zScore > 0.0 {
            direction := High;
          }
          anomalies := anomalies + [Finding(row.key, Round2(row.latest), Round2(row.mean), Round2(row.stddev),
                                            Round2(zScore), direction)];
        }
      }
    }
    assert rows[..|rows|] == rows;
    var sorted := SortByScore(anomalies);
    assert |sorted| == |anomalies| by {
      assert |multiset(sorted)| == |multiset(anomalies)|;
    }
    top := sorted;
    if |sorted| > limit {
      top := sorted[..limit];
    }
    assert top + sorted[|top|..] == sorted;
  }

  // ---------------------------------------------------------------- what is reported and what is left out

  /** A finding is what some flagged row makes of itself. */
  lemma {:induction false} FindingsMeaning(rows: seq<Row>, threshold: real, f: Finding)
    ensures f in Findings(rows, threshold)
       <==> exists row :: row in rows && Flagged(row, threshold) && f == FindingOf(row)
  {
    if rows != [] {
      var front, last := rows[..|rows| - 1], rows[|rows| - 1];
      FindingsMeaning(front, threshold, f);
      assert forall row :: row in rows <==> row in front || row == last;
    }
  }

  /** A row is flagged when its latest value lies at least t deviations from the mean, on either side. */
  lemma {:induction false} FlagMeaning(row: Row, t: real)
    requires row.Row? && row.stddev > 0.0
    ensures Flagged(row, t)
       <==> row.latest - row.mean >= Times(t, row.stddev) || row.mean - row.latest >= Times(t, row.stddev)
  {
    var z, s := ZScore(row), row.stddev;
    Quotient(row.latest - row.mean, s);
    Scale(z, t, s);
    Scale(-z, t, s);
    Negate(z, s);
  }

  lemma {:induction false} Scale(p: real, q: real, s: real)
    requires s > 0.0
    ensures p >= q <==> Times(p, s) >= Times(q, s)
  {
    Commute(p, s);
    Commute(q, s);
    Distribute(s, p, q);
    if p > q {
      Positive(s, p - q);
    } else if p < q {
      Distribute(s, q, p);
      Positive(s, q - p);
    }
  }

  /** What a flagged row is reported as. */
  lemma {:induction false} FindingMeaning(row: Row)
    requires row.Row? && row.stddev > 0.0
    ensures var f := FindingOf(row);
            && f.key == row.key && f.latest == Round2(row.latest) && f.mean == Round2(row.mean)
            && f.stddev == Round2(row.stddev)
            && (f.direction == High <==> row.latest > row.mean)
            && exists z: real :: Times(z, row.stddev) == row.latest - row.mean && f.zScore == Round2(z)
  {
    var z, s := ZScore(row), row.stddev;
    Quotient(row.latest - row.mean, s);
    Scale(z, 0.0, s);
    Scale(0.0, z, s);
    Zero(s);
    assert Times(z, s) == row.latest - row.mean && FindingOf(row).zScore == Round2(z);
  }

  /** Each row adds one finding or none, in the order of the rows. */
  lemma {:induction false} FindingsOfRow(a: seq<Row>, row: Row, b: seq<Row>, t: real)
    ensures Findings(a + [row] + b, t)
         == Findings(a, t) + (if Flagged(row, t) then [FindingOf(row)] else []) + Findings(b, t)
  {
    assert (a + [row])[..|a|] == a;
    FindingsConcat(a + [row], b, t);
  }

  lemma {:induction false} FindingsConcat(a: seq<Row>, b: seq<Row>, t: real)
    ensures Findings(a + b, t) == Findings(a, t) + Findings(b, t)
  {
    if b == [] {
      assert a + b == a;
    } else {
      assert (a + b)[..|a + b| - 1] == a + b[..|b| - 1];
      FindingsConcat(a, b[..|b| - 1], t);
    }
  }

  lemma {:induction false} TopIsFound(top: seq<Finding>, all: seq<Finding>, limit: nat, f: Finding)
    requires IsTop(top, all, limit) && f in top
    ensures f in all
  {
    var rest :| multiset(top + rest) == multiset(all) && Ranked(top + rest);
    assert f in top + rest;
    assert f in multiset(top + rest);
  }

  /** A finding that is cut off never scores higher than one that is reported. */
  lemma {:induction false} TopScoresHighest(top: seq<Finding>, all: seq<Finding>, limit: nat, kept: Finding, f: Finding)
    requires IsTop(top, all, limit) && kept in top && f in all && f !in top
    ensures Abs(f.zScore) <= Abs(kept.zScore)
  {
    var rest :| multiset(top + rest) == multiset(all) && Ranked(top + rest);
    assert f in multiset(all);
    assert f in top + rest;
    var i :| 0 <= i < |top| && top[i] == kept;
    var j :| 0 <= j < |rest| && rest[j] == f;
    assert (top + rest)[i] == kept && (top + rest)[|top| + j] == f;
  }

  // ---------------------------------------------------------------- Samuelson's inequality

  lemma {:induction false} DotAppend(p: Vector, q: Vector)
    ensures Dot(p + q, p + q) == Dot(p, p) + Dot(q, q)
    ensures Total(p + q) == Total(p) + Total(q)
  {
    if q == [] {
      assert p + q == p;
    } else {
      var k := |q| - 1;
      var s := p + q;
      assert s[..|s| - 1] == p + q[..k];
      DotAppend(p, q[..k]);
      assert Ones(|s|)[..|s| - 1] == Ones(|s| - 1) && Ones(|q|)[..k] == Ones(k);
    }
  }

  lemma {:induction false} DotOfOne(x: real)
    ensures Dot([x], [x]) == Times(x, x) && Total([x]) == x
  {
    assert [x][..0] == [];
    assert Ones(1)[..0] == Ones(0);
    One(x);
  }

  lemma {:induction false} WithoutOne(w: Vector, k: nat)
    requires k < |w|
    ensures var u := w[..k] + w[k + 1..];
            Dot(w, w) == Dot(u, u) + Times(w[k], w[k]) && Total(w) == Total(u) + w[k]
  {
    assert w == w[..k] + ([w[k]] + w[k + 1..]);
    DotAppend(w[..k], [w[k]] + w[k + 1..]);
    DotAppend([w[k]], w[k + 1..]);
    DotAppend(w[..k], w[k + 1..]);
    DotOfOne(w[k]);
  }

  lemma {:induction false} NegatedSquare(x: real)
    ensures Times(-x, -x) == Times(x, x)
  {
    Negate(x, -x);
    Commute(x, -x);
    Negate(x, x);
  }

  lemma {:induction false} ShareOfOne(m: real, x: real, rest: real)
    requires Times(m, rest) >= Times(-x, -x)
    ensures Times(m + 1.0, Times(x, x)) <= Times(m, rest + Times(x, x))
  {
    var square := Times(x, x);
    NegatedSquare(x);
    Distribute(m, rest, square);
    Commute(m + 1.0, square);
    Distribute(square, m, 1.0);
    Commute(m, square);
    One(square);
  }

  /** One of n numbers that add up to nothing: its square is at most (n - 1) / n of the sum of squares. */
  lemma {:induction false} OneOfMany(w: Vector, k: nat)
    requires |w| >= 2 && k < |w| && Total(w) == 0.0
    ensures Times(|w| as real, Times(w[k], w[k])) <= Times(|w| as real - 1.0, Dot(w, w))
  {
    var u := w[..k] + w[k + 1..];
    WithoutOne(w, k);
    DenominatorSign(u);
    assert Total(u) == -w[k];
    ShareOfOne(|u| as real, w[k], Dot(u, u));
  }

  lemma {:induction false} DeviationsAddToNothing(vs: Vector)
    requires |vs| > 0
    ensures Total(Deviations(vs)) == 0.0
  {
    Quotient(Total(vs), |vs| as real);
    CentredSums(vs, |vs| as real, Mean(vs));
  }

  /** Samuelson: no value lies further from the mean than sqrt(n - 1) population deviations. */
  lemma {:induction false} Samuelson(vs: Vector, k: nat)
    requires |vs| >= 2 && k < |vs|
    ensures Times(vs[k] - Mean(vs), vs[k] - Mean(vs)) <= Times(|vs| as real - 1.0, Variance(vs))
  {
    var w, n := Deviations(vs), |vs| as real;
    DeviationsAddToNothing(vs);
    OneOfMany(w, k);
    One(vs[k]);
    assert w[k] == vs[k] - Mean(vs);
    Quotient(Dot(w, w), n);
    Commute(Variance(vs), n);
    TimesTwice(n - 1.0, n, Variance(vs));
    OrderFactor(n, Times(w[k], w[k]), Times(n - 1.0, Variance(vs)));
  }

  lemma {:induction false} OrderFactor(n: real, p: real, q: real)
    requires n > 0.0 && Times(n, p) <= Times(n, q)
    ensures p <= q
  {
    if p > q {
      Distribute(n, p, q);
      Positive(n, p - q);
    }
  }

  lemma {:induction false} SquaresGrow(p: real, q: real)
    requires 0.0 <= p <= q
    ensures Times(p, p) <= Times(q, q)
  {
    Distribute(p, q, p);
    Distribute(q, q, p);
    Commute(p, q);
    if p > 0.0 && q > p {
      Positive(p, q - p);
      Positive(q, q - p);
    } else if p == 0.0 {
      Zero(0.0);
      Square(q);
    }
  }

  lemma {:induction false} ScoreSquared(row: Row)
    requires row.Row? && row.stddev > 0.0
    ensures Times(row.latest - row.mean, row.latest - row.mean)
         == Times(Times(ZScore(row), ZScore(row)), Times(row.stddev, row.stddev))
    ensures Times(Abs(ZScore(row)), Abs(ZScore(row))) == Times(ZScore(row), ZScore(row))
  {
    var z, s := ZScore(row), row.stddev;
    Quotient(row.latest - row.mean, s);
    Associate(z, s, Times(z, s));
    Associate(s, z, s);
    Commute(s, z);
    Associate(z, s, s);
    Associate(z, z, Times(s, s));
    NegatedSquare(z);
  }

  /** A group reported at threshold t has at least t * t + 1 samples in its window. */
  lemma {:induction false} ReportNeedsSamples(row: Row, samples: seq<Sample>, threshold: real)
    requires Describes(row, samples) && threshold > 0.0 && Flagged(row, threshold)
    ensures |samples| as real >= Times(threshold, threshold) + 1.0
  {
    var vs, n := Values(samples), |samples| as real;
    var k :| LatestAt(row, samples, k);
    var z, v := ZScore(row), Variance(vs);
    Samuelson(vs, k);
    ScoreSquared(row);
    SquaresGrow(threshold, Abs(z));
    Positive(row.stddev, row.stddev);
    Commute(v, Times(z, z));
    Commute(v, n - 1.0);
    OrderFactor(v, Times(z, z), n - 1.0);
  }

  /** At the default threshold of 2.5 nothing with fewer than eight samples is reported. */
  lemma {:induction false} DefaultNeedsEightSamples(row: Row, samples: seq<Sample>)
    requires Describes(row, samples) && Flagged(row, 2.5)
    ensures |samples| >= 8
  {
    ReportNeedsSamples(row, samples, 2.5);
    assert Times(2.5, 2.5) == 6.25;
  }

  /** Whatever the handler returns comes from a flagged row whose window has at least t * t + 1 samples, which are
      eight or more at the default threshold. */
  lemma {:induction false} ReportedHasSamples(
      top: seq<Finding>, rows: seq<Row>, windows: Row -> seq<Sample>, threshold: real, limit: nat, f: Finding)
      returns (row: Row)
    requires threshold > 0.0 && IsTop(top, Findings(rows, threshold), limit) && f in top
    requires forall r :: r in rows && r.Row? ==> Describes(r, windows(r))
    ensures row in rows && Flagged(row, threshold) && f == FindingOf(row)
    ensures |windows(row)| as real >= Times(threshold, threshold) + 1.0
    ensures threshold == 2.5 ==> |windows(row)| >= 8
  {
    TopIsFound(top, Findings(rows, threshold), limit, f);
    FindingsMeaning(rows, threshold, f);
    row :| row in rows && Flagged(row, threshold) && f == FindingOf(row);
    ReportNeedsSamples(row, windows(row), threshold);
    if threshold == 2.5 {
      DefaultNeedsEightSamples(row, windows(row));
    }
  }

  // ---------------------------------------------------------------- the bound is reached

  /** A flat window with one spike in it. */
  function Spike(n: nat): (vs: Vector)
    requires n >= 2
    ensures |vs| == n
  {
    seq(n, i => if i == n - 1 then n as real else 0.0)
  }

  lemma {:induction false} FlatSums(m: nat)
    ensures Total(seq(m, i => 0.0)) == 0.0 && Dot(seq(m, i => 0.0), seq(m, i => 0.0)) == 0.0
  {
    var z := seq(m, i => 0.0);
    DotSelf(z);
    TotalOfEqual(z, 0.0);
    Zero(m as real);
  }

  lemma {:induction false} SpikeTotals(n: nat)
    requires n >= 2
    ensures Total(Spike(n)) == n as real && Dot(Spike(n), Spike(n)) == Times(n as real, n as real)
  {
    var r, zeros := n as real, seq(n - 1, i => 0.0);
    assert Spike(n) == zeros + [r];
    DotAppend(zeros, [r]);
    FlatSums(n - 1);
    DotOfOne(r);
  }

  lemma {:induction false} SpikeSums(n: nat)
    requires n >= 2
    ensures Mean(Spike(n)) == 1.0
    ensures Dot(Deviations(Spike(n)), Deviations(Spike(n))) == Times(n as real, n as real) - n as real
  {
    var r := n as real;
    SpikeTotals(n);
    One(r);
    CentredSums(Spike(n), r, 1.0);
  }

  /** For every window size the inequality is an equality somewhere. */
  lemma {:induction false} SpikeIsExtreme(n: nat)
    requires n >= 2
    ensures var vs := Spike(n);
            && Variance(vs) > 0.0
            && Times(vs[n - 1] - Mean(vs), vs[n - 1] - Mean(vs)) == Times(n as real - 1.0, Variance(vs))
  {
    var r := n as real;
    SpikeSums(n);
    Distribute(r, r, 1.0);
    One(r);
    Commute(r, r - 1.0);
    Cancel(r - 1.0, r);
    assert Variance(Spike(n)) == r - 1.0;
  }

  /** Windows of n samples can hold a value t deviations from the mean exactly when n >= t * t + 1. */
  lemma {:induction false} WindowSizeNeeded(n: nat, t: real)
    requires n >= 2 && t > 0.0
    ensures (exists vs: Vector, k: nat :: Reaches(vs, k, n, t)) <==> n as real >= Times(t, t) + 1.0
  {
    if vs: Vector, k: nat :| Reaches(vs, k, n, t) {
      var v := Variance(vs);
      Samuelson(vs, k);
      Commute(v, Times(t, t));
      Commute(v, n as real - 1.0);
      OrderFactor(v, Times(t, t), n as real - 1.0);
    }
    if n as real >= Times(t, t) + 1.0 {
      var vs := Spike(n);
      SpikeIsExtreme(n);
      var gap := n as real - 1.0 - Times(t, t);
      Commute(Variance(vs), n as real - 1.0);
      Commute(Variance(vs), Times(t, t));
      Distribute(Variance(vs), n as real - 1.0, Times(t, t));
      Sign(Variance(vs), gap);
      assert Reaches(vs, n - 1, n, t);
    }
  }

  ghost predicate Reaches(vs: Vector, k: nat, n: nat, t: real) {
    && |vs| == n && k < n && Variance(vs) > 0.0
    && Times(vs[k] - Mean(vs), vs[k] - Mean(vs)) >= Times(Times(t, t), Variance(vs))
  }
}
