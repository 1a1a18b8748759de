/** Batched, duplicate-safe inserts: multi-row INSERT statements with numbered placeholders, run in one
    transaction against a table with a unique index. */
module SampleStore {

  type Labels = map<string, string>

  datatype Value = Null | Text(text: string) | Time(time: int) | Number(number: real) | Json(labels: Labels)

  /** A stored row. */
  datatype Tuple = Tuple(
    nodeID: Value, collectedAt: Value, context: Value, chart: Value, family: Value,
    instance: Value, dimension: Value, unit: Value, value: Value, labels: Value)

  const NODE_ID := 0
  const COLLECTED_AT := 1
  const CONTEXT := 2
  const CHART := 3
  const FAMILY := 4
  const INSTANCE := 5
  const DIMENSION := 6
  const UNIT := 7
  const VALUE := 8
  const LABELS := 9
  const WIDTH := 10

  const MAX_PLACEHOLDERS := 65535

  datatype Key = Key(nodeID: Value, collectedAt: Value, context: Value, dimension: Value, chart: Value, instance: Value)

  type Table = map<Key, Tuple>

  function Coalesce(v: Value): Value {
    if v == Null then Text("") else v
  }

  /** The columns of the unique index `uq_metric_sample`. */
  function KeyOf(t: Tuple): Key {
    Key(t.nodeID, t.collectedAt, t.context, t.dimension, Coalesce(t.chart), Coalesce(t.instance))
  }

  predicate NoText(v: Value) {
    v == Null || v == Text("")
  }

  /** Two rows collide when node, time, context, dimension, chart and instance agree; for the last two NULL is the
      empty text. */
  lemma {:induction false} SameKey(t: Tuple, u: Tuple)
    ensures KeyOf(t) == KeyOf(u)
       <==> && t.nodeID == u.nodeID && t.collectedAt == u.collectedAt
            && t.context == u.context && t.dimension == u.dimension
            && (t.chart == u.chart || (NoText(t.chart) && NoText(u.chart)))
            && (t.instance == u.instance || (NoText(t.instance) && NoText(u.instance)))
  {
  }

  // ---------------------------------------------------------------- insertion, one row at a time

  /** Insert if the key is absent; also how many rows that added. */
  function InsertOne(table: Table, t: Tuple): (Table, nat) {
    if KeyOf(t) in table then (table, 0) else (table[KeyOf(t) := t], 1)
  }

  function InsertAll(table: Table, ts: seq<Tuple>): (Table, nat)
    decreases |ts|
  {
    if ts == [] then (table, 0)
    else
      var (next, n) := InsertOne(table, ts[0]);
      var (last, m) := InsertAll(next, ts[1..]);
      (last, n + m)
  }

  lemma {:induction false} InsertAppend(table: Table, a: seq<Tuple>, b: seq<Tuple>)
    ensures var (mid, n) := InsertAll(table, a);
            var (last, m) := InsertAll(mid, b);
            InsertAll(table, a + b) == (last, n + m)
    decreases |a|
  {
    if a == [] {
      assert a + b == b;
    } else {
      assert (a + b)[1..] == a[1..] + b;
      InsertAppend(InsertOne(table, a[0]).0, a[1..], b);
    }
  }

  /** The first of the new rows with a key. */
  ghost predicate FirstWith(ts: seq<Tuple>, i: nat)
  {
    i < |ts| && forall j :: 0 <= j < i ==> KeyOf(ts[j]) != KeyOf(ts[i])
  }

  /** Some new row has this key. */
  ghost predicate Offered(ts: seq<Tuple>, k: Key)
  {
    exists i :: 0 <= i < |ts| && KeyOf(ts[i]) == k
  }

  lemma {:induction false} OfferedTail(ts: seq<Tuple>, k: Key)
    requires ts != []
    ensures Offered(ts, k) <==> KeyOf(ts[0]) == k || Offered(ts[1..], k)
  {
    if Offered(ts[1..], k) {
      var i :| 0 <= i < |ts[1..]| && KeyOf(ts[1..][i]) == k;
      assert KeyOf(ts[i + 1]) == k;
    }
    if Offered(ts, k) {
      var i :| 0 <= i < |ts| && KeyOf(ts[i]) == k;
      assert i > 0 ==> KeyOf(ts[1..][i - 1]) == k;
    }
  }

  /** The table after an insert holds exactly the old and the offered keys, old rows are as they were, and
      the reported count is the growth of the table. */
  lemma {:induction false} InsertKeys(table: Table, ts: seq<Tuple>)
    ensures var (last, n) := InsertAll(table, ts);
            && |last| == |table| + n
            && (forall k :: k in table ==> k in last && last[k] == table[k])
            && (forall k :: k in last <==> k in table || Offered(ts, k))
    decreases |ts|
  {
    if ts != [] {
      InsertKeys(InsertOne(table, ts[0]).0, ts[1..]);
      forall k ensures Offered(ts, k) <==> KeyOf(ts[0]) == k || Offered(ts[1..], k) {
        OfferedTail(ts, k);
      }
    }
  }

  /** The first row offered for a new key is the one that is stored. */
  lemma {:induction false} FirstRowWins(table: Table, ts: seq<Tuple>, i: nat)
    requires FirstWith(ts, i) && KeyOf(ts[i]) !in table
    ensures var last := InsertAll(table, ts).0;
            KeyOf(ts[i]) in last && last[KeyOf(ts[i])] == ts[i]
    decreases |ts|
  {
    var next := InsertOne(table, ts[0]).0;
    if i == 0 {
      InsertKeys(next, ts[1..]);
    } else {
      assert forall j :: 0 <= j < i ==> KeyOf(ts[j]) != KeyOf(ts[i]);
      assert forall j :: 0 <= j < |ts| - 1 ==> ts[1..][j] == ts[j + 1];
      FirstRowWins(next, ts[1..], i - 1);
    }
  }

  lemma {:induction false} NothingNew(table: Table, ts: seq<Tuple>)
    requires forall i :: 0 <= i < |ts| ==> KeyOf(ts[i]) in table
    ensures InsertAll(table, ts) == (table, 0)
    decreases |ts|
  {
    if ts != [] {
      assert forall i :: 0 <= i < |ts| - 1 ==> ts[1..][i] == ts[i + 1];
      NothingNew(table, ts[1..]);
    }
  }

  /** Inserting the same rows again adds nothing and changes nothing. */
  lemma {:induction false} ReinsertIsIdle(table: Table, ts: seq<Tuple>)
    ensures var last := InsertAll(table, ts).0;
            InsertAll(last, ts) == (last, 0)
  {
    InsertKeys(table, ts);
    forall i | 0 <= i < |ts| ensures KeyOf(ts[i]) in InsertAll(table, ts).0 {
      assert Offered(ts, KeyOf(ts[i]));
    }
    NothingNew(InsertAll(table, ts).0, ts);
  }

  // ---------------------------------------------------------------- batches

  /** Consecutive pieces of at most `size` elements. */
  function Batches<T>(s: seq<T>, size: nat): seq<seq<T>>
    requires size > 0
    decreases |s|
  {
    if |s| == 0 then []
    else if |s| <= size then [s]
    else [s[..size]] + Batches(s[size..], size)
  }

  function Joined<T>(pieces: seq<seq<T>>): seq<T> {
    if pieces == [] then [] else pieces[0] + Joined(pieces[1..])
  }

  /** Batches cover every element exactly once and in order. */
  lemma {:induction false} BatchesCover<T>(s: seq<T>, size: nat)
    requires size > 0
    ensures Joined(Batches(s, size)) == s
    decreases |s|
  {
    if |s| > size {
      var head, tail := s[..size], s[size..];
      BatchesCover(tail, size);
      JoinedHead(head, Batches(tail, size));
      assert head + tail == s;
    } else if s != [] {
      JoinedHead(s, []);
      assert [s] + [] == [s] && s + [] == s;
    }
  }

  /** None is empty or too long. */
  lemma {:induction false} BatchesFit<T>(s: seq<T>, size: nat)
    requires size > 0
    ensures forall b :: b in Batches(s, size) ==> 0 < |b| <= size
    decreases |s|
  {
    if |s| > size {
      BatchesFit(s[size..], size);
    }
  }

  lemma {:induction false} JoinedHead<T>(head: seq<T>, rest: seq<seq<T>>)
    ensures Joined([head] + rest) == head + Joined(rest)
  {
    assert ([head] + rest)[1..] == rest;
  }

  function InsertBatches(table: Table, batches: seq<seq<Tuple>>): (Table, nat)
    decreases |batches|
  {
    if batches == [] then (table, 0)
    else
      var (next, n) := InsertAll(table, batches[0]);
      var (last, m) := InsertBatches(next, batches[1..]);
      (last, n + m)
  }

  lemma {:induction false} InsertBatchesHead(table: Table, head: seq<Tuple>, rest: seq<seq<Tuple>>)
    ensures var (next, n) := InsertAll(table, head);
            var (last, m) := InsertBatches(next, rest);
            InsertBatches(table, [head] + rest) == (last, n + m)
  {
    assert ([head] + rest)[1..] == rest;
  }

  /** Whatever the batch size, inserting batch by batch is inserting one row at a time. */
  lemma {:induction false} BatchSizeDoesNotMatter(table: Table, ts: seq<Tuple>, size: nat)
    requires size > 0
    ensures InsertBatches(table, Batches(ts, size)) == InsertAll(table, ts)
    decreases |ts|
  {
    if |ts| > size {
      var head, tail := ts[..size], ts[size..];
      InsertBatchesHead(table, head, Batches(tail, size));
      InsertAppend(table, head, tail);
      assert head + tail == ts;
      BatchSizeDoesNotMatter(InsertAll(table, head).0, tail, size);
    } else if ts != [] {
      InsertBatchesHead(table, ts, []);
      assert [ts] + [] == [ts];
    }
  }

  // ---------------------------------------------------------------- statements

  /** A multi-row INSERT: the columns it names, a tuple of placeholder numbers per row, and the arguments. */
  datatype Statement = Statement(columns: seq<nat>, placeholders: seq<seq<nat>>, args: seq<Value>)

  /** Every placeholder names an argument. */
  predicate Bindable(st: Statement) {
    forall ps :: ps in st.placeholders ==> |ps| == |st.columns| && forall p :: p in ps ==> 1 <= p <= |st.args|
  }

  function Bound(st: Statement, i: nat): (vs: seq<Value>)
    requires Bindable(st) && i < |st.placeholders|
    ensures |vs| == |st.columns|
  {
    var ps := st.placeholders[i];
    assert ps in st.placeholders;
    seq(|st.columns|, j requires 0 <= j < |st.columns| => assert ps[j] in ps; st.args[ps[j] - 1])
  }

  /** Where a column is named; the number of columns if it is not. */
  function PositionOf(columns: seq<nat>, c: nat): (j: nat)
    ensures j <= |columns| && (j < |columns| ==> columns[j] == c) && forall i :: 0 <= i < j ==> columns[i] != c
  {
    if columns == [] then 0 else if columns[0] == c then 0 else 1 + PositionOf(columns[1..], c)
  }

  /** What a column gets: its default if the statement does not name it. */
  function Cell(columns: seq<nat>, vs: seq<Value>, c: nat, default: Value): Value
    requires |vs| == |columns|
  {
    var j := PositionOf(columns, c);
    if j < |columns| then vs[j] else default
  }

  function Placed(columns: seq<nat>, vs: seq<Value>): Tuple
    requires |vs| == |columns|
  {
    Tuple(Cell(columns, vs, NODE_ID, Null), Cell(columns, vs, COLLECTED_AT, Null), Cell(columns, vs, CONTEXT, Null),
          Cell(columns, vs, CHART, Null), Cell(columns, vs, FAMILY, Null), Cell(columns, vs, INSTANCE, Null),
          Cell(columns, vs, DIMENSION, Null), Cell(columns, vs, UNIT, Null), Cell(columns, vs, VALUE, Null),
          Cell(columns, vs, LABELS, Json(map[])))
  }

  function Rows(st: Statement): (ts: seq<Tuple>)
    requires Bindable(st)
  {
    seq(|st.placeholders|, i requires 0 <= i < |st.placeholders| => Placed(st.columns, Bound(st, i)))
  }

  /** The placeholder numbers of row i among rows of k columns. */
  function Numbers(i: nat, k: nat): (ps: seq<nat>)
    ensures |ps| == k
  {
    seq(k, j => i * k + j + 1)
  }

  /** Placeholder p stands for column (p - 1) mod k of row (p - 1) div k, for every p up to k times the
      number of rows and for no other. */
  ghost predicate Numbered(st: Statement, rows: seq<seq<Value>>) {
    var k := |st.columns|;
    && k > 0
    && |st.placeholders| == |rows| && |st.args| == k * |rows|
    && (forall i :: 0 <= i < |rows| ==> st.placeholders[i] == Numbers(i, k) && |rows[i]| == k)
    && (forall p :: 1 <= p <= k * |rows| ==> Stands(st.args, rows, k, p))
  }

  ghost predicate Stands(args: seq<Value>, rows: seq<seq<Value>>, k: nat, p: nat)
    requires k > 0
  {
    var i, j := (p - 1) / k, (p - 1) % k;
    1 <= p <= |args| && 0 <= i < |rows| && j < |rows[i]| && args[p - 1] == rows[i][j]
  }

  lemma {:induction false} PlaceholderPosition(i: nat, j: nat, k: nat, n: nat)
    requires j < k && i < n
    ensures i * k + j + 1 <= k * n
    ensures (i * k + j) / k == i && (i * k + j) % k == j
  {
    assert (i + 1) * k <= n * k;
    DivModUnique(i, j, k);
  }

  lemma {:induction false} ProductAtLeast(d: int, k: nat)
    requires d >= 1
    ensures d * k >= k
  {
    assert (d - 1) * k >= 0;
  }

  lemma {:induction false} DivModUnique(i: nat, j: nat, k: nat)
    requires j < k
    ensures (i * k + j) / k == i && (i * k + j) % k == j
  {
    var q, r := (i * k + j) / k, (i * k + j) % k;
    if q < i {
      ProductAtLeast(i - q, k);
    } else if q > i {
      ProductAtLeast(q - i, k);
    }
  }

  /** A numbered statement binds row by row what it was built from. */
  lemma {:induction false} NumberedBinds(st: Statement, rows: seq<seq<Value>>)
    requires Numbered(st, rows)
    ensures Bindable(st)
    ensures forall i :: 0 <= i < |rows| ==> Bound(st, i) == rows[i]
  {
    var k := |st.columns|;
    forall ps | ps in st.placeholders
      ensures |ps| == k && forall p :: p in ps ==> 1 <= p <= |st.args|
    {
      var i :| 0 <= i < |rows| && st.placeholders[i] == ps;
      forall p | p in ps ensures 1 <= p <= |st.args| {
        var j :| 0 <= j < k && ps[j] == p;
        PlaceholderPosition(i, j, k, |rows|);
      }
    }
    forall i | 0 <= i < |rows| ensures Bound(st, i) == rows[i] {
      forall j | 0 <= j < k ensures Bound(st, i)[j] == rows[i][j] {
        PlaceholderPosition(i, j, k, |rows|);
        assert Stands(st.args, rows, k, i * k + j + 1);
      }
    }
  }

  /** With at most 500 rows neither statement comes near the limit on placeholders. */
  lemma {:induction false} PlaceholderLimit(st: Statement, rows: seq<seq<Value>>)
    requires Numbered(st, rows) && |st.columns| <= 10 && |rows| <= 500
    ensures forall ps, p :: ps in st.placeholders && p in ps ==> 1 <= p <= |st.args| <= 5000 < MAX_PLACEHOLDERS
  {
    NumberedBinds(st, rows);
    assert |st.columns| * |rows| <= WIDTH * BATCH_SIZE;
  }

  const BATCH_SIZE := 500

  /** One more row in a statement under construction. */
  lemma {:induction false} NumberedGrows(
      columns: seq<nat>, placeholders: seq<seq<nat>>, args: seq<Value>, rows: seq<seq<Value>>, row: seq<Value>)
    requires Numbered(Statement(columns, placeholders, args), rows) && |row| == |columns|
    ensures Numbered(Statement(columns, placeholders + [Numbers(|rows|, |columns|)], args + row), rows + [row])
  {
    var k, n := |columns|, |rows|;
    var all := args + row;
    assert k * (n + 1) == k * n + k;
    forall p | 1 <= p <= k * (n + 1) ensures Stands(all, rows + [row], k, p) {
      if p <= k * n {
        assert Stands(args, rows, k, p);
      } else {
        DivModUnique(n, p - 1 - k * n, k);
        assert n * k + (p - 1 - k * n) == p - 1;
      }
    }
  }

  // ---------------------------------------------------------------- the store

  datatype SampleLabels = NoLabels | SomeLabels(labels: Labels)

  datatype MetricSample = MetricSample(
    nodeID: string, collectedAt: int, context: string, chart: string, family: string, instance: string,
    dimension: string, unit: string, value: real, labels: SampleLabels)

  const SAMPLE_COLUMNS: seq<nat> :=
    [NODE_ID, COLLECTED_AT, CONTEXT, CHART, FAMILY, INSTANCE, DIMENSION, UNIT, VALUE, LABELS]

  /** The arguments a sample is written as; missing labels become an empty object. */
  function ValuesOf(s: MetricSample): (vs: seq<Value>)
    ensures |vs| == WIDTH
  {
    [Text(s.nodeID), Time(s.collectedAt), Text(s.context), Text(s.chart), Text(s.family), Text(s.instance),
     Text(s.dimension), Text(s.unit), Number(s.value), Json(if s.labels == NoLabels then map[] else s.labels.labels)]
  }

  /** The row a sample is stored as. */
  function TupleOf(s: MetricSample): Tuple {
    Tuple(Text(s.nodeID), Time(s.collectedAt), Text(s.context), Text(s.chart), Text(s.family), Text(s.instance),
          Text(s.dimension), Text(s.unit), Number(s.value),
          Json(if s.labels == NoLabels then map[] else s.labels.labels))
  }

  /** A sample's fields are stored in the columns of their names, and it collides with the samples of the same node,
      time, context, chart, instance and dimension. */
  lemma {:induction false} SampleColumns(s: MetricSample, u: MetricSample)
    ensures var t := TupleOf(s);
            && t.nodeID == Text(s.nodeID) && t.collectedAt == Time(s.collectedAt) && t.context == Text(s.context)
            && t.chart == Text(s.chart) && t.family == Text(s.family) && t.instance == Text(s.instance)
            && t.dimension == Text(s.dimension) && t.unit == Text(s.unit) && t.value == Number(s.value)
            && t.labels == Json(if s.labels == NoLabels then map[] else s.labels.labels)
    ensures KeyOf(TupleOf(s)) == KeyOf(TupleOf(u))
       <==> && s.nodeID == u.nodeID && s.collectedAt == u.collectedAt && s.context == u.context
            && s.chart == u.chart && s.instance == u.instance && s.dimension == u.dimension
  {
    SameKey(TupleOf(s), TupleOf(u));
  }

  function Mapped<A, B>(f: A -> B, s: seq<A>): (r: seq<B>)
    ensures |r| == |s|
  {
    seq(|s|, i requires 0 <= i < |s| => f(s[i]))
  }

  lemma {:induction false} MappedSplit<A, B>(f: A -> B, s: seq<A>, i: nat, end: nat)
    requires i <= end <= |s|
    ensures Mapped(f, s[..i]) + Mapped(f, s[i..end]) == Mapped(f, s[..end])
  {
  }

  lemma {:induction false} MappedGrows<A, B>(f: A -> B, s: seq<A>, i: nat)
    requires i < |s|
    ensures Mapped(f, s[..i + 1]) == Mapped(f, s[..i]) + [f(s[i])]
  {
  }

  /** A bindable statement stores, row by row, what its columns make of the values it binds. */
  lemma {:induction false} RowsMapped<A(!new)>(
      st: Statement, values: A -> seq<Value>, stored: A -> Tuple, items: seq<A>)
    requires Bindable(st) && |st.placeholders| == |items|
    requires forall i :: 0 <= i < |items| ==> Bound(st, i) == values(items[i])
    requires forall x: A :: |values(x)| == |st.columns| && Placed(st.columns, values(x)) == stored(x)
    ensures Rows(st) == Mapped(stored, items)
  {
  }

  function Tuples(samples: seq<MetricSample>): (ts: seq<Tuple>)
    ensures |ts| == |samples|
  {
    Mapped(TupleOf, samples)
  }

  lemma {:induction false} PositionOfDistinct(columns: seq<nat>, j: nat)
    requires j < |columns| && forall i :: 0 <= i < j ==> columns[i] != columns[j]
    ensures PositionOf(columns, columns[j]) == j
  {
  }

  lemma {:induction false} TenPlaced(vs: seq<Value>)
    requires |vs| == WIDTH
    ensures Placed(SAMPLE_COLUMNS, vs)
         == Tuple(vs[0], vs[1], vs[2], vs[3], vs[4], vs[5], vs[6], vs[7], vs[8], vs[9])
  {
    assert forall j :: 0 <= j < WIDTH ==> SAMPLE_COLUMNS[j] == j;
    forall j | 0 <= j < WIDTH ensures PositionOf(SAMPLE_COLUMNS, j) == j {
      PositionOfDistinct(SAMPLE_COLUMNS, j);
    }
  }

  lemma {:induction false} AllColumnsPlaced(s: MetricSample)
    ensures Placed(SAMPLE_COLUMNS, ValuesOf(s)) == TupleOf(s)
  {
    TenPlaced(ValuesOf(s));
  }

  function TenFrom(base: nat): seq<nat> {
    [base + 1, base + 2, base + 3, base + 4, base + 5, base + 6, base + 7, base + 8, base + 9, base + 10]
  }

  lemma {:induction false} TenAreNumbers(i: nat)
    ensures TenFrom(i * 10) == Numbers(i, WIDTH)
  {
  }

  /** The statement the builder writes for some rows. */
  function Written(columns: seq<nat>, rows: seq<seq<Value>>): (st: Statement)
    ensures st.columns == columns
  {
    if rows == [] then Statement(columns, [], [])
    else
      var n := |rows| - 1;
      var st := Written(columns, rows[..n]);
      Statement(columns, st.placeholders + [Numbers(n, |columns|)], st.args + rows[n])
  }

  lemma {:induction false} WrittenIsNumbered(columns: seq<nat>, rows: seq<seq<Value>>)
    requires columns != [] && forall row :: row in rows ==> |row| == |columns|
    ensures Numbered(Written(columns, rows), rows)
  {
    if rows != [] {
      var n := |rows| - 1;
      WrittenIsNumbered(columns, rows[..n]);
      var st := Written(columns, rows[..n]);
      NumberedGrows(columns, st.placeholders, st.args, rows[..n], rows[n]);
      assert rows[..n] + [rows[n]] == rows;
    }
  }

  lemma {:induction false} WrittenGrows(columns: seq<nat>, rows: seq<seq<Value>>, row: seq<Value>)
    ensures var st := Written(columns, rows);
            var next := Statement(columns, st.placeholders + [Numbers(|rows|, |columns|)], st.args + row);
            Written(columns, rows + [row]) == next
  {
    assert (rows + [row])[..|rows|] == rows;
  }

  lemma {:induction false} OneMoreSample(samples: seq<MetricSample>, i: nat)
    requires i < |samples|
    ensures var st := Written(SAMPLE_COLUMNS, Mapped(ValuesOf, samples[..i]));
            var numbers := st.placeholders + [Numbers(i, WIDTH)];
            Written(SAMPLE_COLUMNS, Mapped(ValuesOf, samples[..i + 1]))
            == Statement(SAMPLE_COLUMNS, numbers, st.args + ValuesOf(samples[i]))
  {
    MappedGrows(ValuesOf, samples, i);
    WrittenGrows(SAMPLE_COLUMNS, Mapped(ValuesOf, samples[..i]), ValuesOf(samples[i]));
  }

  lemma {:induction false} ValuesFit(samples: seq<MetricSample>)
    ensures forall v :: v in Mapped(ValuesOf, samples) ==> |v| == |SAMPLE_COLUMNS|
  {
    forall v | v in Mapped(ValuesOf, samples) ensures |v| == |SAMPLE_COLUMNS| {
      var i :| 0 <= i < |samples| && Mapped(ValuesOf, samples)[i] == v;
      assert v == ValuesOf(samples[i]);
    }
  }

  /** The statement over all ten columns is numbered, and it inserts the samples it was built from. */
  lemma {:induction false} StatementRows(samples: seq<MetricSample>)
    ensures var st := Written(SAMPLE_COLUMNS, Mapped(ValuesOf, samples));
            Numbered(st, Mapped(ValuesOf, samples)) && Bindable(st) && Rows(st) == Tuples(samples)
  {
    var values := Mapped(ValuesOf, samples);
    var st := Written(SAMPLE_COLUMNS, values);
    ValuesFit(samples);
    WrittenIsNumbered(SAMPLE_COLUMNS, values);
    NumberedBinds(st, values);
    forall s: MetricSample ensures Placed(SAMPLE_COLUMNS, ValuesOf(s)) == TupleOf(s) {
      AllColumnsPlaced(s);
    }
    RowsMapped(st, ValuesOf, TupleOf, samples);
  }

  /** Inserting a piece on top of what was inserted before it. */
  lemma {:induction false} NextPiece(table: Table, samples: seq<MetricSample>, i: nat, end: nat)
    requires i <= end <= |samples|
    ensures var (mid, n) := InsertAll(table, Tuples(samples[..i]));
            var (last, m) := InsertAll(mid, Tuples(samples[i..end]));
            InsertAll(table, Tuples(samples[..end])) == (last, n + m)
  {
    MappedSplit(TupleOf, samples, i, end);
    InsertAppend(table, Tuples(samples[..i]), Tuples(samples[i..end]));
  }

  /** Which of the database calls fail. */
  datatype Faults = Faults(begin: bool, batch: nat -> bool, commit: bool)

  ghost predicate BatchFails(faults: Faults, rows: nat) {
    exists b: nat :: b * 500 < rows && faults.batch(b)
  }

  ghost predicate NoneFailed(faults: Faults, b: nat) {
    b == 0 || (NoneFailed(faults, b - 1) && !faults.batch(b - 1))
  }

  /** Batch b is the first that fails, and the rows reach it. */
  ghost predicate StopsAt(faults: Faults, rows: nat, b: nat) {
    b * 500 < rows && NoneFailed(faults, b) && faults.batch(b)
  }

  lemma {:induction false} AllPassed(faults: Faults, rows: nat, b: nat)
    requires NoneFailed(faults, b) && rows <= b * BATCH_SIZE
    ensures !BatchFails(faults, rows)
  {
    if b > 0 {
      AllPassed(faults, if rows < (b - 1) * BATCH_SIZE then rows else (b - 1) * BATCH_SIZE, b - 1);
    }
  }

  lemma {:induction false} BatchFailure(faults: Faults, rows: nat, b: nat)
    requires b * BATCH_SIZE < rows && faults.batch(b)
    ensures BatchFails(faults, rows)
  {
  }

  class Store {
    var table: Table

    /** Writes one tuple of placeholders and ten arguments per sample. */
    method BuildStatement(samples: seq<MetricSample>) returns (st: Statement)
      ensures st == Written(SAMPLE_COLUMNS, Mapped(ValuesOf, samples))
    {
      var placeholders: seq<seq<nat>> := [];
      var args: seq<Value> := [];
      for i := 0 to |samples|
        invariant Statement(SAMPLE_COLUMNS, placeholders, args)
               == Written(SAMPLE_COLUMNS, Mapped(ValuesOf, samples[..i]))
      {
        var s := samples[i];
        var base := i * 10;
        OneMoreSample(samples, i);
        TenAreNumbers(i);
        placeholders := placeholders + [TenFrom(base)];
        args := args + ValuesOf(s);
      }
      assert samples[..|samples|] == samples;
      return Statement(SAMPLE_COLUMNS, placeholders, args);
    }

    /** Runs one multi-row INSERT inside a transaction. */
    method InsertBatch(tx: Table, samples: seq<MetricSample>) returns (next: Table, inserted: nat)
      ensures (next, inserted) == InsertAll(tx, Tuples(samples))
    {
      if samples == [] {
        return tx, 0;
      }
      var st := BuildStatement(samples);
      StatementRows(samples);
      var r := InsertAll(tx, Rows(st));
      return r.0, r.1;
    }

    /** The loop over the batches, inside a transaction that starts from `table`. */
    method RunBatches(samples: seq<MetricSample>, faults: Faults) returns (tx: Table, totalInserted: nat, failed: bool)
      ensures failed <==> BatchFails(faults, |samples|)
      ensures !failed ==> (tx, totalInserted) == InsertAll(table, Tuples(samples))
      ensures failed ==> exists b: nat :: StopsAt(faults, |samples|, b)
                                     && (tx, totalInserted) == InsertAll(table, Tuples(samples[..b * 500]))
    {
      tx, totalInserted := table, 0;
      var i, b: nat := 0, 0;
      while i < |samples|
        invariant i == if b * BATCH_SIZE < |samples| then b * BATCH_SIZE else |samples|
        invariant NoneFailed(faults, b)
        invariant (tx, totalInserted) == InsertAll(table, Tuples(samples[..i]))
        decreases |samples| - i
      {
        var end := i + BATCH_SIZE;
        if end > |samples| {
          end := |samples|;
        }
        if faults.batch(b) {
          BatchFailure(faults, |samples|, b);
          assert StopsAt(faults, |samples|, b);
          return tx, totalInserted, true;
        }
        NextPiece(table, samples, i, end);
        var next, n := InsertBatch(tx, samples[i..end]);
        tx := next;
        totalInserted := totalInserted + n;
        i, b := end, b + 1;
      }
      assert samples[..|samples|] == samples;
      AllPassed(faults, |samples|, b);
      failed := false;
    }

    method InsertSamples(samples: seq<MetricSample>, faults: Faults) returns (inserted: nat, failed: bool)
      modifies this
      ensures failed <==> samples != [] && (faults.begin || faults.commit || BatchFails(faults, |samples|))
      ensures failed ==> table == old(table)
      ensures !failed ==> (table, inserted) == InsertAll(old(table), Tuples(samples))
      ensures failed && (faults.begin || !BatchFails(faults, |samples|)) ==> inserted == 0
      ensures failed && !faults.begin && BatchFails(faults, |samples|) ==>
                exists b: nat :: StopsAt(faults, |samples|, b)
                            && inserted == InsertAll(old(table), Tuples(samples[..b * 500])).1
    {
      if samples == [] {
        return 0, false;
      }
      if faults.begin {
        return 0, true;
      }
      var tx, totalInserted, batchFailed := RunBatches(samples, faults);
      if batchFailed {
        return totalInserted, true;
      }
      if faults.commit {
        return 0, true;
      }
      table := tx;
      return totalInserted, false;
    }
  }
}
