/** From decoded time series to stored rows: which samples of a remote-write request are kept, and the
    batched insert that stores them. */
module Ingest {
  import opened Varint
  import RemoteWrite
  import RemoteWriteLaws
  import opened SampleStore

  type Bytes = RemoteWrite.Bytes
  type Bits64 = RemoteWrite.Bits64

  /** How the database reads label bytes and doubles, and the context a metric name belongs to. */
  datatype Reading = Reading(nodeID: string, text: Bytes -> string, number: Bits64 -> real, context: Bytes -> string)

  datatype Row = Row(collectedAt: int, dimension: Bytes, instance: Bytes, bits: Bits64)

  /** "__name__" and "instance". */
  const METRIC_NAME: Bytes := [95, 95, 110, 97, 109, 101, 95, 95]
  const INSTANCE_NAME: Bytes := [105, 110, 115, 116, 97, 110, 99, 101]

  const NANOS_PER_MILLI := 1_000_000

  /** Neither NaN nor an infinity: the exponent bits are not all ones. */
  predicate Finite(bits: Bits64) {
    bits / 0x10_0000_0000_0000 % 2048 != 2047
  }

  /** The value of the last label with this name; empty if there is none. */
  function LastLabel(labels: seq<RemoteWrite.Label>, name: Bytes): Bytes {
    if labels == [] then []
    else
      var l := labels[|labels| - 1];
      if l.name == name then l.value else LastLabel(labels[..|labels| - 1], name)
  }

  /** Nanoseconds since the epoch, in a 64-bit product that wraps around. */
  function Nanos(timestampMs: int): int {
    RemoteWrite.WrapInt64(timestampMs * NANOS_PER_MILLI)
  }

  function RowOf(ts: RemoteWrite.TimeSeries, s: RemoteWrite.Sample): Row {
    Row(Nanos(s.timestampMs), LastLabel(ts.labels, METRIC_NAME), LastLabel(ts.labels, INSTANCE_NAME), s.bits)
  }

  predicate Named(ts: RemoteWrite.TimeSeries) {
    LastLabel(ts.labels, METRIC_NAME) != []
  }

  function KeptRows(ts: RemoteWrite.TimeSeries, samples: seq<RemoteWrite.Sample>): seq<Row> {
    if samples == [] then []
    else
      var s := samples[|samples| - 1];
      KeptRows(ts, samples[..|samples| - 1]) + if Finite(s.bits) then [RowOf(ts, s)] else []
  }

  function SeriesRows(ts: RemoteWrite.TimeSeries): seq<Row> {
    if Named(ts) then KeptRows(ts, ts.samples) else []
  }

  function FlatMap<A, B>(f: A -> seq<B>, s: seq<A>): seq<B> {
    if s == [] then [] else FlatMap(f, s[..|s| - 1]) + f(s[|s| - 1])
  }

  function RowsOf(series: seq<RemoteWrite.TimeSeries>): seq<Row> {
    FlatMap(SeriesRows, series)
  }

  method Flatten(series: seq<RemoteWrite.TimeSeries>) returns (rows: seq<Row>)
    ensures rows == RowsOf(series)
  {
    rows := [];
    for i := 0 to |series|
      invariant rows == RowsOf(series[..i])
    {
      var ts := series[i];
      assert series[..i + 1][..i] == series[..i];
      var metricName, instance := FindNames(ts.labels);
      if metricName != [] {
        ghost var before := rows;
        for j := 0 to |ts.samples|
          invariant rows == before + KeptRows(ts, ts.samples[..j])
        {
          var s := ts.samples[j];
          assert ts.samples[..j + 1][..j] == ts.samples[..j];
          if Finite(s.bits) {
            rows := rows + [Row(Nanos(s.timestampMs), metricName, instance, s.bits)];
          }
        }
        assert ts.samples[..|ts.samples|] == ts.samples;
      }
    }
    assert series[..|series|] == series;
  }

  method FindNames(labels: seq<RemoteWrite.Label>) returns (metricName: Bytes, instance: Bytes)
    ensures metricName == LastLabel(labels, METRIC_NAME) && instance == LastLabel(labels, INSTANCE_NAME)
  {
    metricName, instance := [], [];
    for i := 0 to |labels|
      invariant metricName == LastLabel(labels[..i], METRIC_NAME)
      invariant instance == LastLabel(labels[..i], INSTANCE_NAME)
    {
      assert labels[..i + 1][..i] == labels[..i];
      assert METRIC_NAME[0] != INSTANCE_NAME[0];
      var l := labels[i];
      if l.name == METRIC_NAME {
        metricName := l.value;
      } else if l.name == INSTANCE_NAME {
        instance := l.value;
      }
    }
    assert labels[..|labels|] == labels;
  }

  // ---------------------------------------------------------------- what is kept

  lemma {:induction false} KeptMeaning(ts: RemoteWrite.TimeSeries, samples: seq<RemoteWrite.Sample>, r: Row)
    ensures r in KeptRows(ts, samples) <==> exists s :: s in samples && Finite(s.bits) && r == RowOf(ts, s)
  {
    if samples != [] {
      var n := |samples| - 1;
      KeptMeaning(ts, samples[..n], r);
      assert forall s :: s in samples <==> s in samples[..n] || s == samples[n];
    }
  }

  /** A row is stored exactly for the finite samples of the series that carry a metric name. */
  lemma {:induction false} RowsMeaning(series: seq<RemoteWrite.TimeSeries>, r: Row)
    ensures r in RowsOf(series)
       <==> exists ts, s :: ts in series && Named(ts) && s in ts.samples && Finite(s.bits) && r == RowOf(ts, s)
  {
    if series != [] {
      var n := |series| - 1;
      RowsMeaning(series[..n], r);
      KeptMeaning(series[n], series[n].samples, r);
      assert forall ts :: ts in series <==> ts in series[..n] || ts == series[n];
    }
  }

  lemma {:induction false} FlatMapConcat<A, B>(f: A -> seq<B>, a: seq<A>, b: seq<A>)
    ensures FlatMap(f, a + b) == FlatMap(f, a) + FlatMap(f, b)
  {
    if b == [] {
      assert a + b == a;
    } else {
      var n := |b| - 1;
      assert (a + b)[..|a + b| - 1] == a + b[..n];
      FlatMapConcat(f, a, b[..n]);
    }
  }

  /** End to end: the rows of two concatenated payloads are the rows of the first and then of the second. */
  lemma {:induction false} PayloadsConcat(a: Bytes, b: Bytes)
    requires RemoteWrite.RequestOf(a).Ok? && RemoteWrite.RequestOf(b).Ok?
    ensures RemoteWrite.RequestOf(a + b).Ok?
    ensures RowsOf(RemoteWrite.RequestOf(a + b).value)
         == RowsOf(RemoteWrite.RequestOf(a).value) + RowsOf(RemoteWrite.RequestOf(b).value)
  {
    RemoteWriteLaws.RequestConcat(a, b);
    FlatMapConcat(SeriesRows, RemoteWrite.RequestOf(a).value, RemoteWrite.RequestOf(b).value);
  }

  // ---------------------------------------------------------------- storing the rows

  const INGEST_COLUMNS: seq<nat> := [NODE_ID, COLLECTED_AT, CONTEXT, DIMENSION, INSTANCE, VALUE]

  function ColumnsOf(rd: Reading): Row -> seq<Value> {
    (r: Row) => [Text(rd.nodeID), Time(r.collectedAt), Text(rd.context(r.dimension)), Text(rd.text(r.dimension)),
                 Text(rd.text(r.instance)), Number(rd.number(r.bits))]
  }

  /** The stored row: chart, family and unit stay NULL and the labels are empty. */
  function RowTuple(rd: Reading): Row -> Tuple {
    (r: Row) => Tuple(Text(rd.nodeID), Time(r.collectedAt), Text(rd.context(r.dimension)), Null, Null,
                      Text(rd.text(r.instance)), Text(rd.text(r.dimension)), Null, Number(rd.number(r.bits)),
                      Json(map[]))
  }

  function RowTuples(rd: Reading, rows: seq<Row>): (ts: seq<Tuple>)
    ensures |ts| == |rows|
  {
    Mapped(RowTuple(rd), rows)
  }

  lemma {:induction false} SixPositions()
    ensures forall j :: 0 <= j < 6 ==> PositionOf(INGEST_COLUMNS, INGEST_COLUMNS[j]) == j
    ensures CHART !in INGEST_COLUMNS && FAMILY !in INGEST_COLUMNS
    ensures UNIT !in INGEST_COLUMNS && LABELS !in INGEST_COLUMNS
  {
    forall j | 0 <= j < 6 ensures PositionOf(INGEST_COLUMNS, INGEST_COLUMNS[j]) == j {
      PositionOfDistinct(INGEST_COLUMNS, j);
    }
  }

  lemma {:induction false} CellAbsent(columns: seq<nat>, vs: seq<Value>, c: nat, default: Value)
    requires |vs| == |columns| && c !in columns
    ensures Cell(columns, vs, c, default) == default
  {
  }

  lemma {:induction false} CellAt(columns: seq<nat>, vs: seq<Value>, j: nat, default: Value)
    requires |vs| == |columns| && j < |columns| && PositionOf(columns, columns[j]) == j
    ensures Cell(columns, vs, columns[j], default) == vs[j]
  {
  }

  lemma {:induction false} SixPlaced(vs: seq<Value>)
    requires |vs| == |INGEST_COLUMNS|
    ensures Placed(INGEST_COLUMNS, vs)
         == Tuple(vs[0], vs[1], vs[2], Null, Null, vs[4], vs[3], Null, vs[5], Json(map[]))
  {
    SixPositions();
    CellAt(INGEST_COLUMNS, vs, 0, Null);
    CellAt(INGEST_COLUMNS, vs, 1, Null);
    CellAt(INGEST_COLUMNS, vs, 2, Null);
    CellAt(INGEST_COLUMNS, vs, 3, Null);
    CellAt(INGEST_COLUMNS, vs, 4, Null);
    CellAt(INGEST_COLUMNS, vs, 5, Null);
    CellAbsent(INGEST_COLUMNS, vs, CHART, Null);
    CellAbsent(INGEST_COLUMNS, vs, FAMILY, Null);
    CellAbsent(INGEST_COLUMNS, vs, UNIT, Null);
    CellAbsent(INGEST_COLUMNS, vs, LABELS, Json(map[]));
  }

  lemma {:induction false} SixColumnsPlaced(rd: Reading, r: Row)
    ensures Placed(INGEST_COLUMNS, ColumnsOf(rd)(r)) == RowTuple(rd)(r)
  {
    SixPlaced(ColumnsOf(rd)(r));
  }

  lemma {:induction false} ValuesFit(rd: Reading, rows: seq<Row>)
    ensures forall v :: v in Mapped(ColumnsOf(rd), rows) ==> |v| == |INGEST_COLUMNS|
  {
  }

  lemma {:induction false} BatchRows(rd: Reading, rows: seq<Row>)
    ensures var st := Written(INGEST_COLUMNS, Mapped(ColumnsOf(rd), rows));
            Numbered(st, Mapped(ColumnsOf(rd), rows)) && Bindable(st) && Rows(st) == RowTuples(rd, rows)
  {
    var values := Mapped(ColumnsOf(rd), rows);
    ValuesFit(rd, rows);
    WrittenIsNumbered(INGEST_COLUMNS, values);
    var st := Written(INGEST_COLUMNS, values);
    NumberedBinds(st, values);
    forall r: Row ensures Placed(INGEST_COLUMNS, ColumnsOf(rd)(r)) == RowTuple(rd)(r) {
      SixColumnsPlaced(rd, r);
    }
    RowsMapped(st, ColumnsOf(rd), RowTuple(rd), rows);
  }

  method BuildStatement(rd: Reading, batch: seq<Row>) returns (st: Statement)
    ensures st == Written(INGEST_COLUMNS, Mapped(ColumnsOf(rd), batch))
  {
    var placeholders: seq<seq<nat>> := [];
    var args: seq<Value> := [];
    for j := 0 to |batch|
      invariant Statement(INGEST_COLUMNS, placeholders, args)
             == Written(INGEST_COLUMNS, Mapped(ColumnsOf(rd), batch[..j]))
    {
      MappedGrows(ColumnsOf(rd), batch, j);
      WrittenGrows(INGEST_COLUMNS, Mapped(ColumnsOf(rd), batch[..j]), ColumnsOf(rd)(batch[j]));
      SixAreNumbers(j);
      placeholders := placeholders + [SixFrom(j * 6)];
      args := args + ColumnsOf(rd)(batch[j]);
    }
    assert batch[..|batch|] == batch;
    return Statement(INGEST_COLUMNS, placeholders, args);
  }

  function SixFrom(base: nat): seq<nat> {
    [base + 1, base + 2, base + 3, base + 4, base + 5, base + 6]
  }

  lemma {:induction false} SixAreNumbers(j: nat)
    ensures SixFrom(j * 6) == Numbers(j, |INGEST_COLUMNS|)
  {
  }

  lemma {:induction false} TuplesOfSlice(rd: Reading, rows: seq<Row>, i: nat, end: nat)
    requires i <= end <= |rows|
    ensures RowTuples(rd, rows[i..end]) == RowTuples(rd, rows)[i..end]
  {
  }

  lemma {:induction false} NextTuples(table: Table, ts: seq<Tuple>, i: nat, end: nat)
    requires i <= end <= |ts|
    ensures InsertAll(table, ts[..end]).0 == InsertAll(InsertAll(table, ts[..i]).0, ts[i..end]).0
  {
    InsertAppend(table, ts[..i], ts[i..end]);
    assert ts[..i] + ts[i..end] == ts[..end];
  }

  method InsertBatch(rd: Reading, tx: Table, batch: seq<Row>, ghost ts: seq<Tuple>) returns (next: Table)
    requires ts == RowTuples(rd, batch)
    ensures next == InsertAll(tx, ts).0
  {
    var st := BuildStatement(rd, batch);
    BatchRows(rd, batch);
    next := InsertAll(tx, Rows(st)).0;
  }

  class Receiver {
    var table: Table

    /** The loop over the batches, inside a transaction that starts from `table`. */
    method RunBatches(rd: Reading, rows: seq<Row>, faults: Faults) returns (tx: Table, count: nat, failed: bool)
      ensures failed <==> BatchFails(faults, |rows|)
      ensures !failed ==> count == |rows| && tx == InsertAll(table, RowTuples(rd, rows)).0
      ensures failed ==> exists b: nat :: StopsAt(faults, |rows|, b) && count == b * 500
    {
      tx, count := table, 0;
      var i, b: nat := 0, 0;
      ghost var ts := RowTuples(rd, rows);
      while i < |rows|
        invariant i == if b * BATCH_SIZE < |rows| then b * BATCH_SIZE else |rows|
        invariant NoneFailed(faults, b) && count == i
        invariant tx == InsertAll(table, ts[..i]).0
        decreases |rows| - i
      {
        var end := i + BATCH_SIZE;
        if end > |rows| {
          end := |rows|;
        }
        if faults.batch(b) {
          BatchFailure(faults, |rows|, b);
          assert StopsAt(faults, |rows|, b);
          return tx, count, true;
        }
        TuplesOfSlice(rd, rows, i, end);
        NextTuples(table, ts, i, end);
        tx := InsertBatch(rd, tx, rows[i..end], ts[i..end]);
        count := count + (end - i);
        i, b := end, b + 1;
      }
      assert ts[..|ts|] == ts;
      AllPassed(faults, |rows|, b);
      failed := false;
    }

    /** Stores the rows of a request. What it reports is the number of rows, stored before or not; with an error it
        is the number of rows before the batch that failed. */
    method IngestSeries(rd: Reading, series: seq<RemoteWrite.TimeSeries>, faults: Faults)
      returns (count: nat, failed: bool)
      modifies this
      ensures failed
         <==> RowsOf(series) != [] && (faults.begin || faults.commit || BatchFails(faults, |RowsOf(series)|))
      ensures failed ==> table == old(table)
      ensures !failed ==> count == |RowsOf(series)|
      ensures !failed ==> table == InsertAll(old(table), RowTuples(rd, RowsOf(series))).0
      ensures failed && (faults.begin || !BatchFails(faults, |RowsOf(series)|)) ==> count == 0
      ensures failed && !faults.begin && BatchFails(faults, |RowsOf(series)|) ==>
                exists b: nat :: StopsAt(faults, |RowsOf(series)|, b) && count == b * 500
    {
      var rows := Flatten(series);
      if |rows| == 0 {
        return 0, false;
      }
      if faults.begin {
        return 0, true;
      }
      var tx, inserted, batchFailed := RunBatches(rd, rows, faults);
      if batchFailed {
        return inserted, true;
      }
      if faults.commit {
        return 0, true;
      }
      table := tx;
      return inserted, false;
    }
  }

  // ---------------------------------------------------------------- what the reported count means

  ghost predicate AllNew(table: Table, ts: seq<Tuple>)
  {
    forall i :: 0 <= i < |ts| ==> KeyOf(ts[i]) !in table && FirstWith(ts, i)
  }

  lemma {:induction false} AllNewTail(table: Table, ts: seq<Tuple>)
    requires ts != []
    ensures AllNew(table, ts) <==> KeyOf(ts[0]) !in table && AllNew(InsertOne(table, ts[0]).0, ts[1..])
  {
    var next, tail := InsertOne(table, ts[0]).0, ts[1..];
    assert forall i :: 0 <= i < |tail| ==> tail[i] == ts[i + 1];
    if AllNew(table, ts) {
      forall i | 0 <= i < |tail| ensures KeyOf(tail[i]) !in next && FirstWith(tail, i) {
        assert FirstWith(ts, i + 1) && KeyOf(ts[i + 1]) !in table;
        assert KeyOf(ts[0]) != KeyOf(ts[i + 1]);
      }
    }
    if KeyOf(ts[0]) !in table && AllNew(next, tail) {
      forall i | 0 <= i < |ts| ensures KeyOf(ts[i]) !in table && FirstWith(ts, i) {
        if i > 0 {
          assert KeyOf(tail[i - 1]) !in next && FirstWith(tail, i - 1);
          assert forall j :: 1 <= j < i ==> ts[j] == tail[j - 1];
        }
      }
    }
  }

  /** The number of rows is the growth of the table exactly when every row has a key of its own that was
      not stored before. */
  lemma {:induction false} CountIsGrowthIffAllNew(table: Table, ts: seq<Tuple>)
    ensures InsertAll(table, ts).1 <= |ts|
    ensures InsertAll(table, ts).1 == |ts| <==> AllNew(table, ts)
    decreases |ts|
  {
    if ts != [] {
      AllNewTail(table, ts);
      CountIsGrowthIffAllNew(InsertOne(table, ts[0]).0, ts[1..]);
    }
  }
}
