/** What a remote-write request stores, sample by sample: which samples become rows, how many, and with what in them. */
module IngestLaws {
  import opened Varint
  import opened Ingest
  import opened SampleStore
  import R = RemoteWrite

  // ---------------------------------------------------------------- in plain terms

  function Ascii(s: string): Bytes {
    seq(|s|, i requires 0 <= i < |s| => if s[i] as int < 256 then s[i] as int else 63)
  }

  lemma {:induction false} NamesSpelled()
    ensures METRIC_NAME == Ascii("__name__") && INSTANCE_NAME == Ascii("instance")
  {
  }

  /** The value of the last label with this name; empty if there is none. */
  ghost predicate IsLast(labels: seq<R.Label>, name: Bytes, value: Bytes) {
    (value == [] && forall i :: 0 <= i < |labels| ==> labels[i].name != name)
    || exists i :: 0 <= i < |labels| && LastAt(labels, name, value, i)
  }

  ghost predicate LastAt(labels: seq<R.Label>, name: Bytes, value: Bytes, i: nat)
    requires i < |labels|
  {
    labels[i].name == name && labels[i].value == value && forall j :: i < j < |labels| ==> labels[j].name != name
  }

  lemma {:induction false} LastLabelIsLast(labels: seq<R.Label>, name: Bytes)
    ensures IsLast(labels, name, LastLabel(labels, name))
  {
    if labels != [] {
      var n := |labels| - 1;
      var value := LastLabel(labels, name);
      if labels[n].name == name {
        assert LastAt(labels, name, value, n);
      } else {
        LastLabelIsLast(labels[..n], name);
        if i :| 0 <= i < n && LastAt(labels[..n], name, value, i) {
          assert forall j :: i < j < n ==> labels[j] == labels[..n][j];
          assert LastAt(labels, name, value, i);
        }
      }
    }
  }

  /** There is only one such value. */
  lemma {:induction false} LastIsUnique(labels: seq<R.Label>, name: Bytes, v: Bytes, w: Bytes)
    requires IsLast(labels, name, v) && IsLast(labels, name, w)
    ensures v == w
  {
    if i :| 0 <= i < |labels| && LastAt(labels, name, v, i) {
      if j :| 0 <= j < |labels| && LastAt(labels, name, w, j) {
        assert i == j;
      }
    }
  }

  /** A double that is not NaN and not infinite: without its sign it is below the pattern of infinity. */
  predicate IsFinite(bits: Bits64) {
    bits % 0x8000_0000_0000_0000 < 0x7FF0_0000_0000_0000
  }

  lemma {:induction false} FinitePattern(bits: Bits64)
    ensures Finite(bits) <==> IsFinite(bits)
  {
    var q, r := bits / 0x10_0000_0000_0000, bits % 0x10_0000_0000_0000;
    var s, e := q / 2048, q % 2048;
    assert bits == (s * 2048 + e) * 0x10_0000_0000_0000 + r;
    assert bits % 0x8000_0000_0000_0000 == e * 0x10_0000_0000_0000 + r;
  }

  /** Nanoseconds in 64 bits, wrapped around where they do not fit. */
  predicate SameTime(nanos: int, ms: int) {
    && -0x8000_0000_0000_0000 <= nanos < 0x8000_0000_0000_0000
    && (nanos - ms * 1_000_000) % 0x1_0000_0000_0000_0000 == 0
  }

  /** The row that a sample of a series with these labels must become. */
  ghost predicate Describes(row: Row, labels: seq<R.Label>, s: R.Sample) {
    && IsLast(labels, Ascii("__name__"), row.dimension)
    && IsLast(labels, Ascii("instance"), row.instance)
    && row.bits == s.bits
    && SameTime(row.collectedAt, s.timestampMs)
    && (-0x8000_0000_0000_0000 <= s.timestampMs * 1_000_000 < 0x8000_0000_0000_0000
        ==> row.collectedAt == s.timestampMs * 1_000_000)
  }

  /** A sample is stored if its double is finite and its series has a metric name. */
  ghost predicate IsStored(labels: seq<R.Label>, s: R.Sample) {
    IsFinite(s.bits) && !IsLast(labels, Ascii("__name__"), [])
  }

  // ---------------------------------------------------------------- one sample among the others

  lemma {:induction false} KeptConcat(ts: R.TimeSeries, a: seq<R.Sample>, b: seq<R.Sample>)
    ensures KeptRows(ts, a + b) == KeptRows(ts, a) + KeptRows(ts, b)
  {
    if b == [] {
      assert a + b == a;
    } else {
      assert (a + b)[..|a + b| - 1] == a + b[..|b| - 1];
      KeptConcat(ts, a, b[..|b| - 1]);
    }
  }

  /** Rows depend on the labels of a series and the samples given, not on its own list of samples. */
  lemma {:induction false} KeptByLabels(ts: R.TimeSeries, us: R.TimeSeries, samples: seq<R.Sample>)
    requires ts.labels == us.labels
    ensures KeptRows(ts, samples) == KeptRows(us, samples)
  {
    if samples != [] {
      KeptByLabels(ts, us, samples[..|samples| - 1]);
    }
  }

  lemma {:induction false} FlatMapOne<A, B>(f: A -> seq<B>, x: A)
    ensures FlatMap(f, [x]) == f(x)
  {
    assert [x][..0] == [];
    assert FlatMap(f, [x][..0]) == [];
  }

  lemma {:induction false} RowsOfOne(ts: R.TimeSeries)
    ensures RowsOf([ts]) == SeriesRows(ts)
  {
    FlatMapOne(SeriesRows, ts);
  }

  /** The samples of a series can be given in two series with the same labels, one after the other. */
  lemma {:induction false} SeriesSplit(ls: seq<R.Label>, p: seq<R.Sample>, q: seq<R.Sample>)
    ensures SeriesRows(R.TimeSeries(ls, p + q)) == SeriesRows(R.TimeSeries(ls, p)) + SeriesRows(R.TimeSeries(ls, q))
  {
    var whole := R.TimeSeries(ls, p + q);
    KeptConcat(whole, p, q);
    KeptByLabels(whole, R.TimeSeries(ls, p), p);
    KeptByLabels(whole, R.TimeSeries(ls, q), q);
  }

  lemma {:induction false} KeptOne(ts: R.TimeSeries, s: R.Sample)
    ensures KeptRows(ts, [s]) == if Finite(s.bits) then [RowOf(ts, s)] else []
  {
    assert [s][..0] == [];
  }

  lemma {:induction false} NanosExact(ms: int)
    requires -TWO_63 <= ms < TWO_63
    ensures SameTime(Nanos(ms), ms)
    ensures -0x8000_0000_0000_0000 <= ms * 1_000_000 < 0x8000_0000_0000_0000 ==> Nanos(ms) == ms * 1_000_000
  {
  }

  /** One sample makes one row or none. */
  lemma {:induction false} OneSample(ls: seq<R.Label>, s: R.Sample) returns (mid: seq<Row>)
    ensures mid == SeriesRows(R.TimeSeries(ls, [s]))
    ensures if IsStored(ls, s) then |mid| == 1 && Describes(mid[0], ls, s) else mid == []
  {
    var ts := R.TimeSeries(ls, [s]);
    mid := SeriesRows(ts);
    KeptOne(ts, s);
    NanosExact(s.timestampMs);
    NamesSpelled();
    FinitePattern(s.bits);
    LastLabelIsLast(ls, METRIC_NAME);
    LastLabelIsLast(ls, INSTANCE_NAME);
    if IsLast(ls, METRIC_NAME, []) {
      LastIsUnique(ls, METRIC_NAME, [], LastLabel(ls, METRIC_NAME));
    }
  }

  /** Rows stand in the order of the samples, and each sample of a request adds its own: one with the labels, time and
      value it came with if it is stored, else none. */
  lemma {:induction false} RowsOfSample(
      a: seq<R.TimeSeries>, ls: seq<R.Label>, p: seq<R.Sample>, s: R.Sample, q: seq<R.Sample>, b: seq<R.TimeSeries>)
      returns (mid: seq<Row>)
    ensures RowsOf(a + [R.TimeSeries(ls, p + [s] + q)] + b)
         == RowsOf(a + [R.TimeSeries(ls, p)]) + mid + RowsOf([R.TimeSeries(ls, q)] + b)
    ensures if IsStored(ls, s) then |mid| == 1 && Describes(mid[0], ls, s) else mid == []
  {
    var before, whole, after := R.TimeSeries(ls, p), R.TimeSeries(ls, p + [s] + q), R.TimeSeries(ls, q);
    mid := OneSample(ls, s);
    SeriesSplit(ls, p + [s], q);
    SeriesSplit(ls, p, [s]);
    RowsOfOne(before);
    RowsOfOne(whole);
    RowsOfOne(after);
    FlatMapConcat(SeriesRows, a + [whole], b);
    FlatMapConcat(SeriesRows, a, [whole]);
    FlatMapConcat(SeriesRows, a, [before]);
    FlatMapConcat(SeriesRows, [after], b);
    Regroup(RowsOf(a), SeriesRows(before), mid, SeriesRows(after), RowsOf(b));
  }

  lemma {:induction false} Regroup(a: seq<Row>, p: seq<Row>, s: seq<Row>, q: seq<Row>, b: seq<Row>)
    ensures a + ((p + s) + q) + b == (a + p) + s + (q + b)
  {
  }

  // ---------------------------------------------------------------- how many rows

  ghost function StoredSamples(ls: seq<R.Label>, samples: seq<R.Sample>): nat {
    if samples == [] then 0
    else (if IsStored(ls, samples[0]) then 1 else 0) + StoredSamples(ls, samples[1..])
  }

  ghost function StoredInAll(series: seq<R.TimeSeries>): nat {
    if series == [] then 0 else StoredSamples(series[0].labels, series[0].samples) + StoredInAll(series[1..])
  }

  lemma {:induction false} SeriesCount(ls: seq<R.Label>, samples: seq<R.Sample>)
    ensures |SeriesRows(R.TimeSeries(ls, samples))| == StoredSamples(ls, samples)
  {
    if samples != [] {
      var mid := OneSample(ls, samples[0]);
      SeriesSplit(ls, [samples[0]], samples[1..]);
      assert [samples[0]] + samples[1..] == samples;
      SeriesCount(ls, samples[1..]);
    }
  }

  /** There are as many rows as finite samples in series with a metric name. */
  lemma {:induction false} RowCount(series: seq<R.TimeSeries>)
    ensures |RowsOf(series)| == StoredInAll(series)
  {
    if series != [] {
      SeriesCount(series[0].labels, series[0].samples);
      RowsOfOne(series[0]);
      FlatMapConcat(SeriesRows, [series[0]], series[1..]);
      assert [series[0]] + series[1..] == series;
      RowCount(series[1..]);
    }
  }

  // ---------------------------------------------------------------- what is stored of a row

  /** The stored columns: the name is the dimension and decides the context; chart, family and unit stay NULL. */
  lemma {:induction false} StoredColumns(rd: Reading, rows: seq<Row>, i: nat)
    requires i < |rows|
    ensures |RowTuples(rd, rows)| == |rows|
    ensures var t, r := RowTuples(rd, rows)[i], rows[i];
            && t.nodeID == Text(rd.nodeID) && t.collectedAt == Time(r.collectedAt)
            && t.context == Text(rd.context(r.dimension)) && t.dimension == Text(rd.text(r.dimension))
            && t.instance == Text(rd.text(r.instance)) && t.value == Number(rd.number(r.bits))
            && t.chart == t.family == t.unit == Null && t.labels == Json(map[])
  {
  }
}
