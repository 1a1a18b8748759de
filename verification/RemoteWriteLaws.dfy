/** Laws of the remote-write decoder: concatenation, what a message means as a list of fields,
    unknown fields, and decoding what an encoder wrote. */
module RemoteWriteLaws {
  import opened Varint
  import opened RemoteWrite

  // ---------------------------------------------------------------- concatenation

  /** What a step reads does not depend on the bytes after it. */
  ghost predicate Stable<S(!new)>(step: Step<S>) {
    forall acc: S, data: Bytes, more: Bytes :: step(acc, data).Ok? ==>
      step(acc, data + more) == Ok((step(acc, data).value.0, step(acc, data).value.1 + more))
  }

  lemma {:induction false} RunConcat<S(!new)>(step: Step<S>, acc: S, a: Bytes, b: Bytes)
    requires Consumes(step) && Stable(step)
    requires Run(step, acc, a).Ok?
    ensures Run(step, acc, a + b) == Run(step, Run(step, acc, a).value, b)
    decreases |a|
  {
    if a == [] {
      assert a + b == b;
    } else {
      RunField(step, acc, a);
      RunField(step, acc, a + b);
      var (next, rest) := step(acc, a).value;
      RunConcat(step, next, rest, b);
    }
  }

  lemma {:induction false} TagStable(data: Bytes, more: Bytes)
    requires DecodeTag(data).2 != 0
    ensures DecodeTag(data + more) == DecodeTag(data)
    ensures (data + more)[DecodeTag(data).2..] == data[DecodeTag(data).2..] + more
  {
    DecodeStable(data, more);
  }

  lemma {:induction false} AdvanceStable(wireType: nat, data: Bytes, more: Bytes)
    requires Advance(wireType, data).Ok?
    ensures Advance(wireType, data + more) == Ok(Advance(wireType, data).value + more)
  {
    if wireType == 0 || wireType == 2 {
      DecodeStable(data, more);
    }
    var skip := SkipField(wireType, data).value;
    assert (data + more)[skip..] == data[skip..] + more;
  }

  lemma {:induction false} ChunkStable(level: Level, data: Bytes, more: Bytes)
    requires Chunk(level, data).Ok?
    ensures Chunk(level, data + more) == Ok((Chunk(level, data).value.0, Chunk(level, data).value.1 + more))
  {
    DecodeStable(data, more);
    var (len, n) := Decode(data);
    assert (data + more)[n..] == data[n..] + more;
    assert (data[n..] + more)[..len] == data[n..][..len];
    assert (data[n..] + more)[len..] == data[n..][len..] + more;
  }

  lemma {:induction false} LabelStepStable()
    ensures Consumes(LabelStep) && Stable(LabelStep)
  {
    forall l: Label, data: Bytes, more: Bytes | LabelStep(l, data).Ok?
      ensures LabelStep(l, data + more) == Ok((LabelStep(l, data).value.0, LabelStep(l, data).value.1 + more))
    {
      TagStable(data, more);
      var (field, wireType, n) := DecodeTag(data);
      if wireType == 2 {
        ChunkStable(LabelLevel, data[n..], more);
      } else {
        AdvanceStable(wireType, data[n..], more);
      }
    }
  }

  lemma {:induction false} SampleStepStable()
    ensures Consumes(SampleStep) && Stable(SampleStep)
  {
    forall s: Sample, data: Bytes, more: Bytes | SampleStep(s, data).Ok?
      ensures SampleStep(s, data + more) == Ok((SampleStep(s, data).value.0, SampleStep(s, data).value.1 + more))
    {
      TagStable(data, more);
      var (field, wireType, n) := DecodeTag(data);
      var d := data[n..];
      if field == 1 && wireType == 1 {
        assert (d + more)[..8] == d[..8] && (d + more)[8..] == d[8..] + more;
      } else if field == 2 && wireType == 0 {
        DecodeStable(d, more);
        assert (d + more)[Decode(d).1..] == d[Decode(d).1..] + more;
      } else {
        AdvanceStable(wireType, d, more);
      }
    }
  }

  lemma {:induction false} SeriesStepStable()
    ensures Consumes(SeriesStep) && Stable(SeriesStep)
  {
    forall ts: TimeSeries, data: Bytes, more: Bytes | SeriesStep(ts, data).Ok?
      ensures SeriesStep(ts, data + more) == Ok((SeriesStep(ts, data).value.0, SeriesStep(ts, data).value.1 + more))
    {
      TagStable(data, more);
      var (field, wireType, n) := DecodeTag(data);
      if wireType == 2 {
        ChunkStable(Series, data[n..], more);
      } else {
        AdvanceStable(wireType, data[n..], more);
      }
    }
  }

  lemma {:induction false} RequestStepStable()
    ensures Consumes(RequestStep) && Stable(RequestStep)
  {
    forall all: seq<TimeSeries>, data: Bytes, more: Bytes | RequestStep(all, data).Ok?
      ensures RequestStep(all, data + more)
           == Ok((RequestStep(all, data).value.0, RequestStep(all, data).value.1 + more))
    {
      TagStable(data, more);
      var (field, wireType, n) := DecodeTag(data);
      if field == 1 && wireType == 2 {
        ChunkStable(Request, data[n..], more);
      } else {
        AdvanceStable(wireType, data[n..], more);
      }
    }
  }

  function AppendSeries(x: TimeSeries, y: TimeSeries): TimeSeries {
    TimeSeries(x.labels + y.labels, x.samples + y.samples)
  }

  lemma {:induction false} SeriesStepAccumulates(x: TimeSeries, y: TimeSeries, data: Bytes)
    ensures SeriesStep(AppendSeries(x, y), data)
         == (var r := SeriesStep(y, data); if r.Ok? then Ok((AppendSeries(x, r.value.0), r.value.1)) else r)
  {
    var r := SeriesStep(y, data);
    if r.Ok? {
      var next := r.value.0;
      if |next.labels| > |y.labels| {
        assert x.labels + y.labels + [next.labels[|y.labels|]] == x.labels + next.labels;
      } else if |next.samples| > |y.samples| {
        assert x.samples + y.samples + [next.samples[|y.samples|]] == x.samples + next.samples;
      }
    }
  }

  lemma {:induction false} SeriesAccumulates(x: TimeSeries, y: TimeSeries, data: Bytes)
    requires Consumes(SeriesStep)
    ensures Run(SeriesStep, AppendSeries(x, y), data)
         == (var r := Run(SeriesStep, y, data); if r.Ok? then Ok(AppendSeries(x, r.value)) else r)
    decreases |data|
  {
    if data != [] {
      RunField(SeriesStep, y, data);
      RunField(SeriesStep, AppendSeries(x, y), data);
      SeriesStepAccumulates(x, y, data);
      var r := SeriesStep(y, data);
      if r.Ok? {
        SeriesAccumulates(x, r.value.0, r.value.1);
      }
    }
  }

  lemma {:induction false} RequestStepAccumulates(x: seq<TimeSeries>, y: seq<TimeSeries>, data: Bytes)
    ensures RequestStep(x + y, data)
         == (var r := RequestStep(y, data); if r.Ok? then Ok((x + r.value.0, r.value.1)) else r)
  {
    var r := RequestStep(y, data);
    if r.Ok? {
      assert x + y + r.value.0[|y|..] == x + r.value.0;
    }
  }

  lemma {:induction false} RequestAccumulates(x: seq<TimeSeries>, y: seq<TimeSeries>, data: Bytes)
    requires Consumes(RequestStep)
    ensures Run(RequestStep, x + y, data)
         == (var r := Run(RequestStep, y, data); if r.Ok? then Ok(x + r.value) else r)
    decreases |data|
  {
    if data != [] {
      RunField(RequestStep, y, data);
      RunField(RequestStep, x + y, data);
      RequestStepAccumulates(x, y, data);
      var r := RequestStep(y, data);
      if r.Ok? {
        RequestAccumulates(x, r.value.0, r.value.1);
      }
    }
  }

  /** Two requests one after the other decode to the series of both, or to the second one's failure. */
  lemma {:induction false} RequestConcat(a: Bytes, b: Bytes)
    requires RequestOf(a).Ok?
    ensures RequestOf(a + b)
         == (var r := RequestOf(b); if r.Ok? then Ok(RequestOf(a).value + r.value) else r)
  {
    RequestStepStable();
    RunConcat(RequestStep, [], a, b);
    var x := RequestOf(a).value;
    assert x + [] == x;
    RequestAccumulates(x, [], b);
  }

  /** Concatenated time series messages merge: their labels and their samples are appended. */
  lemma {:induction false} SeriesConcat(a: Bytes, b: Bytes)
    requires SeriesOf(a).Ok?
    ensures SeriesOf(a + b)
         == (var r := SeriesOf(b); if r.Ok? then Ok(AppendSeries(SeriesOf(a).value, r.value)) else r)
  {
    SeriesStepStable();
    RunConcat(SeriesStep, NO_SERIES, a, b);
    var x := SeriesOf(a).value;
    assert AppendSeries(x, NO_SERIES) == x;
    SeriesAccumulates(x, NO_SERIES, b);
  }

  // ---------------------------------------------------------------- messages as lists of fields

  /** What a field holds, by its wire type. */
  datatype Content = Number(v: int) | EightBytes(bytes: Bytes) | Text(body: Bytes) | FourBytes(bytes: Bytes)

  datatype Field = Field(number: nat, content: Content)

  /** A reader that knows no message: the next field, whatever it is, and the bytes behind it. It insists
      that the field fits the bytes there are. */
  function NextField(data: Bytes): (r: Outcome<(Field, Bytes)>)
    ensures r.Ok? ==> |r.value.1| < |data|
  {
    var (number, wireType, n) := DecodeTag(data);
    if n == 0 then Err(InvalidTag(Request))
    else
      var d := data[n..];
      match wireType
      case 0 =>
        var (v, taken) := Decode(d);
        if taken == 0 then Err(InvalidVarintSkip) else Ok((Field(number, Number(v)), d[taken..]))
      case 1 => if |d| < 8 then Err(TruncatedFixed64) else Ok((Field(number, EightBytes(d[..8])), d[8..]))
      case 2 => var (body, rest) :- Chunk(Request, d); Ok((Field(number, Text(body)), rest))
      case 5 => if |d| < 4 then Err(TruncatedFixed32) else Ok((Field(number, FourBytes(d[..4])), d[4..]))
      case _ => Err(UnknownWireType(wireType))
  }

  function FieldStep(fs: seq<Field>, data: Bytes): (r: Outcome<(seq<Field>, Bytes)>)
    ensures r.Ok? ==> |r.value.1| < |data|
  {
    var (f, rest) :- NextField(data);
    Ok((fs + [f], rest))
  }

  /** The fields of a well-framed message. */
  function FieldsOf(data: Bytes): Outcome<seq<Field>> { Run(FieldStep, [], data) }

  /** The last text field with this number wins; `base` if there is none. */
  function LastText(base: Bytes, fs: seq<Field>, number: nat): Bytes {
    if fs == [] then base
    else
      var f := fs[|fs| - 1];
      if f.number == number && f.content.Text? then f.content.body else LastText(base, fs[..|fs| - 1], number)
  }

  function LastDouble(base: Bits64, fs: seq<Field>): Bits64 {
    if fs == [] then base
    else
      var f := fs[|fs| - 1];
      if f.number == 1 && f.content.EightBytes? && |f.content.bytes| == 8
      then Double(f.content.bytes)
      else LastDouble(base, fs[..|fs| - 1])
  }

  function LastInt64(base: Int64, fs: seq<Field>): Int64 {
    if fs == [] then base
    else
      var f := fs[|fs| - 1];
      if f.number == 2 && f.content.Number? && 0 <= f.content.v < TWO_64
      then ToInt64(f.content.v)
      else LastInt64(base, fs[..|fs| - 1])
  }

  function LabelMeaning(base: Label, fs: seq<Field>): Label {
    Label(LastText(base.name, fs, 1), LastText(base.value, fs, 2))
  }

  function SampleMeaning(base: Sample, fs: seq<Field>): Sample {
    Sample(LastInt64(base.timestampMs, fs), LastDouble(base.bits, fs))
  }

  /** A series gains a label from a text field 1 and a sample from a text field 2. */
  function AddField(ts: TimeSeries, f: Field): TimeSeries {
    if f.content.Text? && f.number == 1 && LabelOf(f.content.body).Ok?
    then ts.(labels := ts.labels + [LabelOf(f.content.body).value])
    else if f.content.Text? && f.number == 2 && SampleOf(f.content.body).Ok?
    then ts.(samples := ts.samples + [SampleOf(f.content.body).value])
    else ts
  }

  /** Every embedded label and sample, in order of appearance. */
  function SeriesMeaning(fs: seq<Field>): TimeSeries {
    if fs == [] then NO_SERIES else AddField(SeriesMeaning(fs[..|fs| - 1]), fs[|fs| - 1])
  }

  function AddSeriesField(all: seq<TimeSeries>, f: Field): seq<TimeSeries> {
    if f.content.Text? && f.number == 1 && SeriesOf(f.content.body).Ok?
    then all + [SeriesOf(f.content.body).value]
    else all
  }

  function RequestMeaning(fs: seq<Field>): seq<TimeSeries> {
    if fs == [] then [] else AddSeriesField(RequestMeaning(fs[..|fs| - 1]), fs[|fs| - 1])
  }

  /** Reading one field of the message is recording it and then taking its meaning. */
  ghost predicate Tracks<S(!new)>(step: Step<S>, meaning: seq<Field> -> S) {
    forall fs: seq<Field>, data: Bytes ::
      |data| < TWO_63 && step(meaning(fs), data).Ok? && NextField(data).Ok? ==> TracksOne(step, meaning, fs, data)
  }

  ghost predicate TracksOne<S>(step: Step<S>, meaning: seq<Field> -> S, fs: seq<Field>, data: Bytes)
    requires step(meaning(fs), data).Ok? && NextField(data).Ok?
  {
    var (f, rest) := NextField(data).value;
    step(meaning(fs), data).value == (meaning(fs + [f]), rest)
  }

  lemma {:induction false} RunTracks<S(!new)>(step: Step<S>, meaning: seq<Field> -> S, fs: seq<Field>, data: Bytes)
    requires Consumes(step) && Consumes(FieldStep) && Tracks(step, meaning)
    requires |data| < TWO_63 && Run(step, meaning(fs), data).Ok? && Run(FieldStep, fs, data).Ok?
    ensures Run(step, meaning(fs), data).value == meaning(Run(FieldStep, fs, data).value)
    decreases |data|
  {
    if data != [] {
      RunField(step, meaning(fs), data);
      RunField(FieldStep, fs, data);
      assert TracksOne(step, meaning, fs, data);
      var (f, rest) := NextField(data).value;
      RunTracks(step, meaning, fs + [f], rest);
    }
  }

  /** A field whose length fits is passed over whole. */
  lemma {:induction false} ChunkIsSkipped(level: Level, data: Bytes)
    requires |data| < TWO_63 && Chunk(level, data).Ok?
    ensures Advance(2, data) == Ok(Chunk(level, data).value.1)
  {
    var (len, n) := Decode(data);
    assert data[n..][len..] == data[n + len..];
  }

  /** At the two levels that skip text fields unread, skipping is the same as reading the field. */
  lemma {:induction false} SkipIsNext(data: Bytes)
    requires |data| < TWO_63 && NextField(data).Ok?
    ensures var (number, wireType, n) := DecodeTag(data);
            Advance(wireType, data[n..]) == Ok(NextField(data).value.1)
  {
    var (number, wireType, n) := DecodeTag(data);
    if wireType == 2 {
      ChunkIsSkipped(Request, data[n..]);
    }
  }

  lemma {:induction false} LabelTracks(base: Label)
    ensures Tracks(LabelStep, fs => LabelMeaning(base, fs))
  {
    var meaning := (fs: seq<Field>) => LabelMeaning(base, fs);
    forall fs: seq<Field>, data: Bytes
      | |data| < TWO_63 && LabelStep(meaning(fs), data).Ok? && NextField(data).Ok?
      ensures TracksOne(LabelStep, meaning, fs, data)
    {
      SkipIsNext(data);
      var next := fs + [NextField(data).value.0];
      assert next[..|next| - 1] == fs;
    }
  }

  lemma {:induction false} SampleTracks(base: Sample)
    ensures Tracks(SampleStep, fs => SampleMeaning(base, fs))
  {
    var meaning := (fs: seq<Field>) => SampleMeaning(base, fs);
    forall fs: seq<Field>, data: Bytes
      | |data| < TWO_63 && SampleStep(meaning(fs), data).Ok? && NextField(data).Ok?
      ensures TracksOne(SampleStep, meaning, fs, data)
    {
      SkipIsNext(data);
      var next := fs + [NextField(data).value.0];
      assert next[..|next| - 1] == fs;
    }
  }

  lemma {:induction false} SeriesTracks()
    ensures Tracks(SeriesStep, SeriesMeaning)
  {
    forall fs: seq<Field>, data: Bytes
      | |data| < TWO_63 && SeriesStep(SeriesMeaning(fs), data).Ok? && NextField(data).Ok?
      ensures TracksOne(SeriesStep, SeriesMeaning, fs, data)
    {
      SeriesAddsField(SeriesMeaning(fs), data);
      var next := fs + [NextField(data).value.0];
      assert next[..|next| - 1] == fs;
    }
  }

  lemma {:induction false} SeriesAddsField(ts: TimeSeries, data: Bytes)
    requires |data| < TWO_63 && SeriesStep(ts, data).Ok? && NextField(data).Ok?
    ensures SeriesStep(ts, data).value == (AddField(ts, NextField(data).value.0), NextField(data).value.1)
  {
    SkipIsNext(data);
  }

  lemma {:induction false} RequestAddsField(all: seq<TimeSeries>, data: Bytes)
    requires |data| < TWO_63 && RequestStep(all, data).Ok? && NextField(data).Ok?
    ensures RequestStep(all, data).value == (AddSeriesField(all, NextField(data).value.0), NextField(data).value.1)
  {
    SkipIsNext(data);
  }

  lemma {:induction false} RequestTracks()
    ensures Tracks(RequestStep, RequestMeaning)
  {
    forall fs: seq<Field>, data: Bytes
      | |data| < TWO_63 && RequestStep(RequestMeaning(fs), data).Ok? && NextField(data).Ok?
      ensures TracksOne(RequestStep, RequestMeaning, fs, data)
    {
      RequestAddsField(RequestMeaning(fs), data);
      var next := fs + [NextField(data).value.0];
      assert next[..|next| - 1] == fs;
    }
  }

  // ---------------------------------------------------------------- which well-framed messages decode

  /** Where the next field is well framed, the step succeeds for just the fields the guard admits, and leaves
      the bytes behind the field. */
  ghost predicate Accepts<S(!new)>(step: Step<S>, admits: Field -> bool) {
    forall acc: S, data: Bytes :: |data| < TWO_63 && NextField(data).Ok? ==>
      && (step(acc, data).Ok? <==> admits(NextField(data).value.0))
      && (step(acc, data).Ok? ==> step(acc, data).value.1 == NextField(data).value.1)
  }

  lemma {:induction false} FieldsExtend(fs: seq<Field>, data: Bytes)
    requires Consumes(FieldStep) && Run(FieldStep, fs, data).Ok?
    ensures fs <= Run(FieldStep, fs, data).value
    decreases |data|
  {
    if data != [] {
      RunField(FieldStep, fs, data);
      var (next, rest) := FieldStep(fs, data).value;
      FieldsExtend(next, rest);
    }
  }

  lemma {:induction false} RunAccepts<S(!new)>(
      step: Step<S>, admits: Field -> bool, acc: S, fs: seq<Field>, data: Bytes)
    requires Consumes(step) && Consumes(FieldStep) && Accepts(step, admits)
    requires |data| < TWO_63 && Run(FieldStep, fs, data).Ok?
    ensures var all := Run(FieldStep, fs, data).value;
            Run(step, acc, data).Ok? <==> forall k :: |fs| <= k < |all| ==> admits(all[k])
    decreases |data|
  {
    if data != [] {
      var all := Run(FieldStep, fs, data).value;
      RunField(step, acc, data);
      RunField(FieldStep, fs, data);
      var (f, rest) := NextField(data).value;
      FieldsExtend(fs + [f], rest);
      assert all[|fs|] == f;
      if admits(f) {
        RunAccepts(step, admits, step(acc, data).value.0, fs + [f], rest);
      }
    }
  }

  lemma {:induction false} RunAcceptsAll<S(!new)>(step: Step<S>, admits: Field -> bool, acc: S, data: Bytes)
    requires Consumes(step) && Consumes(FieldStep) && Accepts(step, admits)
    requires |data| < TWO_63 && Run(FieldStep, [], data).Ok?
    ensures Run(step, acc, data).Ok? <==> forall f :: f in Run(FieldStep, [], data).value ==> admits(f)
  {
    RunAccepts(step, admits, acc, [], data);
    var all := Run(FieldStep, [], data).value;
    assert forall k :: 0 <= k < |all| ==> all[k] in all;
  }

  function Anything(f: Field): bool { true }

  lemma {:induction false} LabelAccepts()
    ensures Accepts(LabelStep, Anything)
  {
    forall l: Label, data: Bytes | |data| < TWO_63 && NextField(data).Ok?
      ensures LabelStep(l, data).Ok? && LabelStep(l, data).value.1 == NextField(data).value.1
    {
      SkipIsNext(data);
    }
  }

  lemma {:induction false} SampleAccepts()
    ensures Accepts(SampleStep, Anything)
  {
    forall s: Sample, data: Bytes | |data| < TWO_63 && NextField(data).Ok?
      ensures SampleStep(s, data).Ok? && SampleStep(s, data).value.1 == NextField(data).value.1
    {
      SkipIsNext(data);
    }
  }

  /** The embedded label or sample of a series' field decodes, if it has one. */
  predicate BodyDecodes(f: Field) {
    f.content.Text? ==>
      (f.number == 1 ==> LabelOf(f.content.body).Ok?) && (f.number == 2 ==> SampleOf(f.content.body).Ok?)
  }

  lemma {:induction false} SeriesAccepts()
    ensures Accepts(SeriesStep, BodyDecodes)
  {
    forall ts: TimeSeries, data: Bytes | |data| < TWO_63 && NextField(data).Ok?
      ensures SeriesStep(ts, data).Ok? <==> BodyDecodes(NextField(data).value.0)
      ensures SeriesStep(ts, data).Ok? ==> SeriesStep(ts, data).value.1 == NextField(data).value.1
    {
      SkipIsNext(data);
    }
  }

  predicate SeriesDecodes(f: Field) {
    f.content.Text? && f.number == 1 ==> SeriesOf(f.content.body).Ok?
  }

  lemma {:induction false} RequestAccepts()
    ensures Accepts(RequestStep, SeriesDecodes)
  {
    forall all: seq<TimeSeries>, data: Bytes | |data| < TWO_63 && NextField(data).Ok?
      ensures RequestStep(all, data).Ok? <==> SeriesDecodes(NextField(data).value.0)
      ensures RequestStep(all, data).Ok? ==> RequestStep(all, data).value.1 == NextField(data).value.1
    {
      SkipIsNext(data);
    }
  }

  // ---------------------------------------------------------------- what well-framed messages mean

  /** Last one wins: a well-framed label decodes, its name and value are its last text fields 1 and 2, and
      decoding on from an earlier label keeps what the new bytes do not set. */
  lemma {:induction false} LabelLastOneWins(base: Label, data: Bytes)
    requires |data| < TWO_63 && FieldsOf(data).Ok?
    ensures Run(LabelStep, base, data) == Ok(LabelMeaning(base, FieldsOf(data).value))
  {
    LabelAccepts();
    RunAcceptsAll(LabelStep, Anything, base, data);
    LabelTracks(base);
    var meaning := (fs: seq<Field>) => LabelMeaning(base, fs);
    assert meaning([]) == base;
    RunTracks(LabelStep, meaning, [], data);
  }

  lemma {:induction false} SampleLastOneWins(base: Sample, data: Bytes)
    requires |data| < TWO_63 && FieldsOf(data).Ok?
    ensures Run(SampleStep, base, data) == Ok(SampleMeaning(base, FieldsOf(data).value))
  {
    SampleAccepts();
    RunAcceptsAll(SampleStep, Anything, base, data);
    SampleTracks(base);
    var meaning := (fs: seq<Field>) => SampleMeaning(base, fs);
    assert meaning([]) == base;
    RunTracks(SampleStep, meaning, [], data);
  }

  /** A well-framed series decodes exactly when all its embedded labels and samples do, and is then those in order
      of appearance, whatever other fields stand between them. */
  lemma {:induction false} SeriesIsItsFields(data: Bytes)
    requires |data| < TWO_63 && FieldsOf(data).Ok?
    ensures SeriesOf(data).Ok? <==> forall f :: f in FieldsOf(data).value ==> BodyDecodes(f)
    ensures SeriesOf(data).Ok? ==> SeriesOf(data).value == SeriesMeaning(FieldsOf(data).value)
  {
    SeriesAccepts();
    RunAcceptsAll(SeriesStep, BodyDecodes, NO_SERIES, data);
    SeriesTracks();
    if SeriesOf(data).Ok? {
      RunTracks(SeriesStep, SeriesMeaning, [], data);
    }
  }

  /** A well-framed request decodes exactly when all its embedded series do, and is then those in order. */
  lemma {:induction false} RequestIsItsFields(data: Bytes)
    requires |data| < TWO_63 && FieldsOf(data).Ok?
    ensures RequestOf(data).Ok? <==> forall f :: f in FieldsOf(data).value ==> SeriesDecodes(f)
    ensures RequestOf(data).Ok? ==> RequestOf(data).value == RequestMeaning(FieldsOf(data).value)
  {
    RequestAccepts();
    RunAcceptsAll(RequestStep, SeriesDecodes, [], data);
    RequestTracks();
    if RequestOf(data).Ok? {
      RunTracks(RequestStep, RequestMeaning, [], data);
    }
  }

  // ---------------------------------------------------------------- concatenated labels and samples

  /** A label decodes exactly when it is well framed: this level checks every length it meets. */
  lemma {:induction false} LabelDecodesIffFramed(data: Bytes)
    requires |data| < TWO_63
    ensures LabelOf(data).Ok? <==> FieldsOf(data).Ok?
  {
    if LabelOf(data).Ok? {
      LabelIsFramed(NO_LABEL, [], data);
    }
    if FieldsOf(data).Ok? {
      LabelLastOneWins(NO_LABEL, data);
    }
  }

  lemma {:induction false} LabelIsFramed(l: Label, fs: seq<Field>, data: Bytes)
    requires |data| < TWO_63 && Run(LabelStep, l, data).Ok?
    ensures Run(FieldStep, fs, data).Ok?
    decreases |data|
  {
    if data != [] {
      RunField(LabelStep, l, data);
      RunField(FieldStep, fs, data);
      LabelAccepts();
      var (f, rest) := NextField(data).value;
      LabelIsFramed(LabelStep(l, data).value.0, fs + [f], rest);
    }
  }

  /** Whether and how decoding fails does not depend on what was decoded before. */
  lemma {:induction false} LabelFailsAlike(x: Label, y: Label, data: Bytes)
    ensures Run(LabelStep, x, data).Ok? <==> Run(LabelStep, y, data).Ok?
    ensures !Run(LabelStep, x, data).Ok? ==> Run(LabelStep, x, data) == Run(LabelStep, y, data)
    decreases |data|
  {
    if data != [] && LabelStep(x, data).Ok? {
      LabelFailsAlike(LabelStep(x, data).value.0, LabelStep(y, data).value.0, LabelStep(x, data).value.1);
    }
  }

  lemma {:induction false} SampleFailsAlike(x: Sample, y: Sample, data: Bytes)
    ensures Run(SampleStep, x, data).Ok? <==> Run(SampleStep, y, data).Ok?
    ensures !Run(SampleStep, x, data).Ok? ==> Run(SampleStep, x, data) == Run(SampleStep, y, data)
    decreases |data|
  {
    if data != [] && SampleStep(x, data).Ok? {
      SampleFailsAlike(SampleStep(x, data).value.0, SampleStep(y, data).value.0, SampleStep(x, data).value.1);
    }
  }

  /** Concatenated labels: each half of the result is the second label's if it sets it, else the first one's, and
      a second label that fails makes the whole fail in the same way. */
  lemma {:induction false} LabelConcat(a: Bytes, b: Bytes)
    requires |b| < TWO_63 && LabelOf(a).Ok?
    ensures LabelOf(b).Ok? ==>
              FieldsOf(b).Ok? && LabelOf(a + b) == Ok(LabelMeaning(LabelOf(a).value, FieldsOf(b).value))
    ensures !LabelOf(b).Ok? ==> LabelOf(a + b) == LabelOf(b)
  {
    LabelStepStable();
    RunConcat(LabelStep, NO_LABEL, a, b);
    LabelFailsAlike(NO_LABEL, LabelOf(a).value, b);
    LabelDecodesIffFramed(b);
    if FieldsOf(b).Ok? {
      LabelLastOneWins(LabelOf(a).value, b);
    }
  }

  /** Concatenated samples likewise; a sample level that skips by an unchecked length may decode without being
      well framed, and is then decoded on from the first sample all the same. */
  lemma {:induction false} SampleConcat(a: Bytes, b: Bytes)
    requires |b| < TWO_63 && SampleOf(a).Ok?
    ensures SampleOf(a + b) == Run(SampleStep, SampleOf(a).value, b)
    ensures FieldsOf(b).Ok? ==> SampleOf(a + b) == Ok(SampleMeaning(SampleOf(a).value, FieldsOf(b).value))
    ensures !SampleOf(b).Ok? ==> SampleOf(a + b) == SampleOf(b)
  {
    SampleStepStable();
    RunConcat(SampleStep, NO_SAMPLE, a, b);
    SampleFailsAlike(NO_SAMPLE, SampleOf(a).value, b);
    if FieldsOf(b).Ok? {
      SampleLastOneWins(SampleOf(a).value, b);
    }
  }
}
