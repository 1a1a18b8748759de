/** Unknown fields are invisible to the remote-write decoder, and decoding inverts encoding. */
module RemoteWriteEncoding {
  import opened Varint
  import opened RemoteWrite
  import opened RemoteWriteLaws

  // ---------------------------------------------------------------- unknown fields

  /** A field that the message at this level has no use for. */
  predicate Unknown(level: Level, f: Field) {
    match level
    case Request => !(f.number == 1 && f.content.Text?)
    case Series => !((f.number == 1 || f.number == 2) && f.content.Text?)
    case LabelLevel => !((f.number == 1 || f.number == 2) && f.content.Text?)
    case SampleLevel => !(f.number == 1 && f.content.EightBytes?) && !(f.number == 2 && f.content.Number?)
  }

  /** A step passes over every field that is unknown at its level. */
  ghost predicate Skips<S(!new)>(step: Step<S>, level: Level) {
    forall acc: S, data: Bytes :: |data| < TWO_63 && NextField(data).Ok? && Unknown(level, NextField(data).value.0)
      ==> step(acc, data) == Ok((acc, NextField(data).value.1))
  }

  lemma {:induction false} RunSkips<S(!new)>(step: Step<S>, level: Level, acc: S, fs: seq<Field>, u: Bytes)
    requires Consumes(step) && Consumes(FieldStep) && Skips(step, level)
    requires |u| < TWO_63 && Run(FieldStep, fs, u).Ok?
    requires forall k :: |fs| <= k < |Run(FieldStep, fs, u).value| ==> Unknown(level, Run(FieldStep, fs, u).value[k])
    ensures Run(step, acc, u) == Ok(acc)
    decreases |u|
  {
    if u != [] {
      RunField(step, acc, u);
      RunField(FieldStep, fs, u);
      var (next, rest) := FieldStep(fs, u).value;
      FieldsExtend(next, rest);
      assert next[|fs|] == Run(FieldStep, fs, u).value[|fs|];
      RunSkips(step, level, acc, next, rest);
    }
  }

  lemma {:induction false} InsertUnknown<S(!new)>(step: Step<S>, level: Level, acc: S, a: Bytes, u: Bytes, b: Bytes)
    requires Consumes(step) && Stable(step) && Consumes(FieldStep) && Skips(step, level)
    requires Run(step, acc, a).Ok? && |u| < TWO_63 && FieldsOf(u).Ok?
    requires forall f :: f in FieldsOf(u).value ==> Unknown(level, f)
    ensures Run(step, acc, a + u + b) == Run(step, acc, a + b)
  {
    var mid := Run(step, acc, a).value;
    RunSkips(step, level, mid, [], u);
    RunConcat(step, acc, a, u);
    RunConcat(step, acc, a + u, b);
    RunConcat(step, acc, a, b);
  }

  lemma {:induction false} LabelSkips()
    ensures Skips(LabelStep, LabelLevel)
  {
    forall l: Label, data: Bytes
      | |data| < TWO_63 && NextField(data).Ok? && Unknown(LabelLevel, NextField(data).value.0)
      ensures LabelStep(l, data) == Ok((l, NextField(data).value.1))
    {
      SkipIsNext(data);
    }
  }

  lemma {:induction false} SampleSkips()
    ensures Skips(SampleStep, SampleLevel)
  {
    forall s: Sample, data: Bytes
      | |data| < TWO_63 && NextField(data).Ok? && Unknown(SampleLevel, NextField(data).value.0)
      ensures SampleStep(s, data) == Ok((s, NextField(data).value.1))
    {
      SkipIsNext(data);
    }
  }

  lemma {:induction false} SeriesSkips()
    ensures Skips(SeriesStep, Series)
  {
    forall ts: TimeSeries, data: Bytes
      | |data| < TWO_63 && NextField(data).Ok? && Unknown(Series, NextField(data).value.0)
      ensures SeriesStep(ts, data) == Ok((ts, NextField(data).value.1))
    {
      SkipIsNext(data);
    }
  }

  lemma {:induction false} RequestSkips()
    ensures Skips(RequestStep, Request)
  {
    forall all: seq<TimeSeries>, data: Bytes
      | |data| < TWO_63 && NextField(data).Ok? && Unknown(Request, NextField(data).value.0)
      ensures RequestStep(all, data) == Ok((all, NextField(data).value.1))
    {
      SkipIsNext(data);
    }
  }

  /** Bytes that hold only well-framed fields unknown at a level change nothing between two fields of any message. */
  lemma {:induction false} UnknownFieldsIgnored(level: Level, a: Bytes, u: Bytes, b: Bytes)
    requires |u| < TWO_63 && FieldsOf(u).Ok? && forall f :: f in FieldsOf(u).value ==> Unknown(level, f)
    ensures level == Request && RequestOf(a).Ok? ==> RequestOf(a + u + b) == RequestOf(a + b)
    ensures level == Series && SeriesOf(a).Ok? ==> SeriesOf(a + u + b) == SeriesOf(a + b)
    ensures level == LabelLevel && LabelOf(a).Ok? ==> LabelOf(a + u + b) == LabelOf(a + b)
    ensures level == SampleLevel && SampleOf(a).Ok? ==> SampleOf(a + u + b) == SampleOf(a + b)
  {
    match level
    case Request =>
      if RequestOf(a).Ok? { RequestStepStable(); RequestSkips(); InsertUnknown(RequestStep, level, [], a, u, b); }
    case Series =>
      if SeriesOf(a).Ok? { SeriesStepStable(); SeriesSkips(); InsertUnknown(SeriesStep, level, NO_SERIES, a, u, b); }
    case LabelLevel =>
      if LabelOf(a).Ok? { LabelStepStable(); LabelSkips(); InsertUnknown(LabelStep, level, NO_LABEL, a, u, b); }
    case SampleLevel =>
      if SampleOf(a).Ok? { SampleStepStable(); SampleSkips(); InsertUnknown(SampleStep, level, NO_SAMPLE, a, u, b); }
  }

  // ---------------------------------------------------------------- the encoder

  /** A field number and a wire type in one varint. */
  function Tag(number: nat, wireType: nat): Bytes {
    Encode(number * 8 + wireType)
  }

  function Delimited(number: nat, body: Bytes): Bytes {
    Tag(number, 2) + Encode(|body|) + body
  }

  function FixedBytes(v: Bits64, k: nat): (s: Bytes)
    ensures |s| == k
  {
    if k == 0 then [] else [v % 256] + FixedBytes(v / 256, k - 1)
  }

  /** Encoders may leave out fields that hold the default value. */
  function OrNothing(omit: bool, field: Bytes): Bytes {
    if omit then [] else field
  }

  function EncodeLabel(l: Label, compact: bool): Bytes {
    OrNothing(compact && l.name == [], Delimited(1, l.name))
    + OrNothing(compact && l.value == [], Delimited(2, l.value))
  }

  function EncodeSample(s: Sample, compact: bool): Bytes {
    OrNothing(compact && s.bits == 0, Tag(1, 1) + FixedBytes(s.bits, 8))
    + OrNothing(compact && s.timestampMs == 0, Tag(2, 0) + Encode(ToUint64(s.timestampMs)))
  }

  function Concatenated<T>(field: T -> Bytes, items: seq<T>): Bytes {
    if items == [] then [] else field(items[0]) + Concatenated(field, items[1..])
  }

  function LabelField(compact: bool): Label -> Bytes {
    (l: Label) => Delimited(1, EncodeLabel(l, compact))
  }

  function SampleField(compact: bool): Sample -> Bytes {
    (s: Sample) => Delimited(2, EncodeSample(s, compact))
  }

  function EncodeSeries(ts: TimeSeries, compact: bool): Bytes {
    Concatenated(LabelField(compact), ts.labels) + Concatenated(SampleField(compact), ts.samples)
  }

  function SeriesField(compact: bool): TimeSeries -> Bytes {
    (ts: TimeSeries) => Delimited(1, EncodeSeries(ts, compact))
  }

  function EncodeRequest(all: seq<TimeSeries>, compact: bool): Bytes {
    Concatenated(SeriesField(compact), all)
  }

  // ---------------------------------------------------------------- round trip

  lemma {:induction false} VarintIsTag(e: Bytes, rest: Bytes, v: nat, number: nat, wireType: nat)
    requires e != [] && Decode(e + rest) == (v, |e|) && v == number * 8 + wireType && wireType < 8
    ensures DecodeTag(e + rest) == (number, wireType, |e|) && (e + rest)[|e|..] == rest
  {
  }

  lemma {:induction false} TagRoundTrip(number: nat, wireType: nat, rest: Bytes)
    requires wireType < 8 && number * 8 + wireType < TWO_64
    ensures DecodeTag(Tag(number, wireType) + rest) == (number, wireType, |Tag(number, wireType)|)
    ensures (Tag(number, wireType) + rest)[|Tag(number, wireType)|..] == rest
  {
    var v := number * 8 + wireType;
    RoundTrip(v, rest);
    VarintIsTag(Encode(v), rest, v, number, wireType);
  }

  lemma {:induction false} ChunkRoundTrip(level: Level, body: Bytes, rest: Bytes)
    requires |body| < TWO_63
    ensures Chunk(level, Encode(|body|) + body + rest) == Ok((body, rest))
  {
    var prefix := Encode(|body|);
    RoundTrip(|body|, body + rest);
    assert prefix + body + rest == prefix + (body + rest);
    ChunkOfParts(level, prefix, body, rest);
  }

  lemma {:induction false} ChunkOfParts(level: Level, prefix: Bytes, body: Bytes, rest: Bytes)
    requires |body| < TWO_63 && Decode(prefix + (body + rest)) == (|body|, |prefix|) && prefix != []
    ensures Chunk(level, prefix + (body + rest)) == Ok((body, rest))
  {
    assert (prefix + (body + rest))[|prefix|..] == body + rest;
    assert (body + rest)[..|body|] == body && (body + rest)[|body|..] == rest;
  }

  lemma {:induction false} DelimitedRoundTrip(level: Level, number: nat, body: Bytes, rest: Bytes)
    requires |body| < TWO_63 && number * 8 + 2 < TWO_64
    ensures var data := Delimited(number, body) + rest;
            var n := |Tag(number, 2)|;
            DecodeTag(data) == (number, 2, n) && Chunk(level, data[n..]) == Ok((body, rest))
  {
    var tail := Encode(|body|) + body + rest;
    assert Delimited(number, body) + rest == Tag(number, 2) + tail;
    TagRoundTrip(number, 2, tail);
    ChunkRoundTrip(level, body, rest);
  }

  lemma {:induction false} FixedBytesRoundTrip(v: Bits64, k: nat, bound: nat)
    requires k <= 8 && v < bound && bound == Power256(k)
    ensures LittleEndian(FixedBytes(v, k)) == v
  {
    if k > 0 {
      FixedBytesRoundTrip(v / 256, k - 1, Power256(k - 1));
      assert FixedBytes(v, k)[1..] == FixedBytes(v / 256, k - 1);
    }
  }

  function Power256(k: nat): nat {
    if k == 0 then 1 else 256 * Power256(k - 1)
  }

  lemma {:induction false} Power256Of8()
    ensures Power256(8) == TWO_64
  {
    assert Power256(4) == 256 * Power256(3) && Power256(3) == 256 * Power256(2);
    assert Power256(2) == 256 * Power256(1) && Power256(1) == 256 * Power256(0);
    assert Power256(6) == 256 * Power256(5) && Power256(5) == 256 * Power256(4);
    assert Power256(8) == 256 * Power256(7) && Power256(7) == 256 * Power256(6);
  }

  lemma {:induction false} TextFieldRoundTrip(l: Label, number: nat, text: Bytes, rest: Bytes)
    requires |text| < TWO_63 && (number == 1 || number == 2)
    ensures Run(LabelStep, l, Delimited(number, text) + rest)
         == Run(LabelStep, if number == 1 then l.(name := text) else l.(value := text), rest)
  {
    DelimitedRoundTrip(LabelLevel, number, text, rest);
    RunField(LabelStep, l, Delimited(number, text) + rest);
  }

  lemma {:induction false} LabelRoundTrip(l: Label, compact: bool)
    requires |EncodeLabel(l, compact)| < TWO_63
    ensures LabelOf(EncodeLabel(l, compact)) == Ok(l)
  {
    var second := OrNothing(compact && l.value == [], Delimited(2, l.value));
    var named := Label(l.name, []);
    if compact && l.name == [] {
      assert EncodeLabel(l, compact) == second;
    } else {
      TextFieldRoundTrip(NO_LABEL, 1, l.name, second);
    }
    if !(compact && l.value == []) {
      assert second + [] == second;
      TextFieldRoundTrip(named, 2, l.value, []);
    }
  }

  lemma {:induction false} SampleRoundTrip(s: Sample, compact: bool)
    ensures SampleOf(EncodeSample(s, compact)) == Ok(s)
  {
    var time := Tag(2, 0) + Encode(ToUint64(s.timestampMs));
    var second := OrNothing(compact && s.timestampMs == 0, time);
    var timeless := Sample(0, s.bits);
    if compact && s.bits == 0 {
      assert EncodeSample(s, compact) == second;
    } else {
      DoubleRoundTrip(s.bits, second);
    }
    assert SampleOf(EncodeSample(s, compact)) == Run(SampleStep, timeless, second);
    if !(compact && s.timestampMs == 0) {
      TimestampRoundTrip(timeless, s.timestampMs);
    }
  }

  lemma {:induction false} DoubleRoundTrip(bits: Bits64, rest: Bytes)
    ensures Run(SampleStep, NO_SAMPLE, Tag(1, 1) + FixedBytes(bits, 8) + rest) == Run(SampleStep, Sample(0, bits), rest)
  {
    var bytes := FixedBytes(bits, 8);
    var data := Tag(1, 1) + bytes + rest;
    assert data == Tag(1, 1) + (bytes + rest);
    TagRoundTrip(1, 1, bytes + rest);
    assert (bytes + rest)[..8] == bytes && (bytes + rest)[8..] == rest;
    Power256Of8();
    FixedBytesRoundTrip(bits, 8, TWO_64);
    RunField(SampleStep, NO_SAMPLE, data);
  }

  lemma {:induction false} TimestampRoundTrip(s: Sample, timestampMs: Int64)
    ensures Run(SampleStep, s, Tag(2, 0) + Encode(ToUint64(timestampMs))) == Ok(s.(timestampMs := timestampMs))
  {
    var v := Encode(ToUint64(timestampMs));
    TagRoundTrip(2, 0, v);
    RoundTrip(ToUint64(timestampMs), []);
    assert v + [] == v;
    RunField(SampleStep, s, Tag(2, 0) + v);
  }

  lemma {:induction false} LabelFieldRoundTrip(ts: TimeSeries, l: Label, rest: Bytes, compact: bool)
    requires |EncodeLabel(l, compact)| < TWO_63
    ensures Run(SeriesStep, ts, Delimited(1, EncodeLabel(l, compact)) + rest)
         == Run(SeriesStep, ts.(labels := ts.labels + [l]), rest)
  {
    var body := EncodeLabel(l, compact);
    LabelRoundTrip(l, compact);
    DelimitedRoundTrip(Series, 1, body, rest);
    RunField(SeriesStep, ts, Delimited(1, body) + rest);
  }

  lemma {:induction false} SampleFieldRoundTrip(ts: TimeSeries, s: Sample, rest: Bytes, compact: bool)
    requires |EncodeSample(s, compact)| < TWO_63
    ensures Run(SeriesStep, ts, Delimited(2, EncodeSample(s, compact)) + rest)
         == Run(SeriesStep, ts.(samples := ts.samples + [s]), rest)
  {
    var body := EncodeSample(s, compact);
    SampleRoundTrip(s, compact);
    DelimitedRoundTrip(Series, 2, body, rest);
    RunField(SeriesStep, ts, Delimited(2, body) + rest);
  }

  /** A reader of `field(x)` that adds `x` to what it has: stated for any step, so that lists of fields
      need no further look at one. */
  ghost predicate Reads<S(!new), T(!new)>(step: Step<S>, field: T -> Bytes, add: (S, T) -> S, items: seq<T>)
    requires Consumes(step)
  {
    forall acc: S, x: T, rest: Bytes :: x in items ==>
      Run(step, acc, field(x) + rest) == Run(step, add(acc, x), rest)
  }

  lemma {:induction false} ListRoundTrip<S(!new), T(!new)>(
      step: Step<S>, field: T -> Bytes, add: (S, T) -> S, acc: S, items: seq<T>, rest: Bytes)
    requires Consumes(step) && Reads(step, field, add, items)
    ensures Run(step, acc, Concatenated(field, items) + rest) == Run(step, Folded(add, acc, items), rest)
    decreases |items|
  {
    if items == [] {
      assert Concatenated(field, items) + rest == rest;
    } else {
      var tail := Concatenated(field, items[1..]) + rest;
      assert Concatenated(field, items) + rest == field(items[0]) + tail;
      assert items[0] in items;
      ListRoundTrip(step, field, add, add(acc, items[0]), items[1..], rest);
    }
  }

  function Folded<S, T>(add: (S, T) -> S, acc: S, items: seq<T>): S {
    if items == [] then acc else Folded(add, add(acc, items[0]), items[1..])
  }

  lemma {:induction false} ItemFits<T>(field: T -> Bytes, items: seq<T>)
    ensures forall x :: x in items ==> |field(x)| <= |Concatenated(field, items)|
  {
    if items != [] {
      ItemFits(field, items[1..]);
      assert forall x :: x in items ==> x == items[0] || x in items[1..];
    }
  }

  lemma {:induction false} FoldedLabels(ts: TimeSeries, ls: seq<Label>)
    ensures Folded(AddLabel, ts, ls) == ts.(labels := ts.labels + ls)
    decreases |ls|
  {
    if ls == [] {
      assert ts.labels + ls == ts.labels;
    } else {
      FoldedLabels(AddLabel(ts, ls[0]), ls[1..]);
      assert ts.labels + [ls[0]] + ls[1..] == ts.labels + ls;
    }
  }

  lemma {:induction false} FoldedSamples(ts: TimeSeries, ss: seq<Sample>)
    ensures Folded(AddSample, ts, ss) == ts.(samples := ts.samples + ss)
    decreases |ss|
  {
    if ss == [] {
      assert ts.samples + ss == ts.samples;
    } else {
      FoldedSamples(AddSample(ts, ss[0]), ss[1..]);
      assert ts.samples + [ss[0]] + ss[1..] == ts.samples + ss;
    }
  }

  lemma {:induction false} FoldedSeries(done: seq<TimeSeries>, all: seq<TimeSeries>)
    ensures Folded(AddSeries, done, all) == done + all
    decreases |all|
  {
    if all != [] {
      FoldedSeries(AddSeries(done, all[0]), all[1..]);
      assert done + [all[0]] + all[1..] == done + all;
    }
  }

  function AddLabel(ts: TimeSeries, l: Label): TimeSeries { ts.(labels := ts.labels + [l]) }

  function AddSample(ts: TimeSeries, s: Sample): TimeSeries { ts.(samples := ts.samples + [s]) }

  function AddSeries(done: seq<TimeSeries>, ts: TimeSeries): seq<TimeSeries> { done + [ts] }

  lemma {:induction false} LabelsAreRead(ls: seq<Label>, compact: bool)
    requires |Concatenated(LabelField(compact), ls)| < TWO_63
    ensures Reads(SeriesStep, LabelField(compact), AddLabel, ls)
  {
    ItemFits(LabelField(compact), ls);
    forall ts: TimeSeries, l: Label, rest: Bytes | l in ls
      ensures Run(SeriesStep, ts, LabelField(compact)(l) + rest) == Run(SeriesStep, AddLabel(ts, l), rest)
    {
      assert |LabelField(compact)(l)| < TWO_63;
      LabelFieldRoundTrip(ts, l, rest, compact);
    }
  }

  lemma {:induction false} SamplesAreRead(ss: seq<Sample>, compact: bool)
    requires |Concatenated(SampleField(compact), ss)| < TWO_63
    ensures Reads(SeriesStep, SampleField(compact), AddSample, ss)
  {
    ItemFits(SampleField(compact), ss);
    forall ts: TimeSeries, s: Sample, rest: Bytes | s in ss
      ensures Run(SeriesStep, ts, SampleField(compact)(s) + rest) == Run(SeriesStep, AddSample(ts, s), rest)
    {
      assert |SampleField(compact)(s)| < TWO_63;
      SampleFieldRoundTrip(ts, s, rest, compact);
    }
  }

  lemma {:induction false} SeriesAreRead(all: seq<TimeSeries>, compact: bool)
    requires |Concatenated(SeriesField(compact), all)| < TWO_63
    ensures Reads(RequestStep, SeriesField(compact), AddSeries, all)
  {
    ItemFits(SeriesField(compact), all);
    forall done: seq<TimeSeries>, ts: TimeSeries, rest: Bytes | ts in all
      ensures Run(RequestStep, done, SeriesField(compact)(ts) + rest) == Run(RequestStep, AddSeries(done, ts), rest)
    {
      assert |SeriesField(compact)(ts)| < TWO_63;
      SeriesFieldRoundTrip(done, ts, rest, compact);
    }
  }

  lemma {:induction false} SeriesRoundTrip(ts: TimeSeries, compact: bool)
    requires |EncodeSeries(ts, compact)| < TWO_63
    ensures SeriesOf(EncodeSeries(ts, compact)) == Ok(ts)
  {
    var samples := Concatenated(SampleField(compact), ts.samples);
    var labelled := TimeSeries(ts.labels, []);
    LabelsAreRead(ts.labels, compact);
    ListRoundTrip(SeriesStep, LabelField(compact), AddLabel, NO_SERIES, ts.labels, samples);
    FoldedLabels(NO_SERIES, ts.labels);
    assert [] + ts.labels == ts.labels && [] + ts.samples == ts.samples && samples + [] == samples;
    SamplesAreRead(ts.samples, compact);
    ListRoundTrip(SeriesStep, SampleField(compact), AddSample, labelled, ts.samples, []);
    FoldedSamples(labelled, ts.samples);
  }

  lemma {:induction false} SeriesFieldRoundTrip(done: seq<TimeSeries>, ts: TimeSeries, rest: Bytes, compact: bool)
    requires |EncodeSeries(ts, compact)| < TWO_63
    ensures Run(RequestStep, done, Delimited(1, EncodeSeries(ts, compact)) + rest)
         == Run(RequestStep, done + [ts], rest)
  {
    var body := EncodeSeries(ts, compact);
    SeriesRoundTrip(ts, compact);
    DelimitedRoundTrip(Request, 1, body, rest);
    RunField(RequestStep, done, Delimited(1, body) + rest);
  }

  /** Decoding the encoding of any list of time series returns exactly that list: any label bytes, any
      64-bit double pattern, any signed 64-bit timestamp, with or without fields that hold defaults. The
      one condition is that the encoding fits a Go slice. */
  lemma {:induction false} RequestRoundTrip(all: seq<TimeSeries>, compact: bool)
    requires |EncodeRequest(all, compact)| < TWO_63
    ensures RequestOf(EncodeRequest(all, compact)) == Ok(all)
  {
    var data := EncodeRequest(all, compact);
    SeriesAreRead(all, compact);
    ListRoundTrip(RequestStep, SeriesField(compact), AddSeries, [], all, []);
    FoldedSeries([], all);
    assert [] + all == all && data + [] == data;
  }

  // ---------------------------------------------------------------- fields of every kind

  /** A field of any number and kind as an encoder writes it. */
  function EncodeField(f: Field): Bytes
    requires f.content.Number? ==> f.content.v >= 0
  {
    match f.content
    case Number(v) => Tag(f.number, 0) + Encode(v)
    case EightBytes(b) => Tag(f.number, 1) + b
    case Text(body) => Delimited(f.number, body)
    case FourBytes(b) => Tag(f.number, 5) + b
  }

  predicate Encodable(f: Field) {
    && f.number * 8 + 7 < TWO_64
    && match f.content
       case Number(v) => 0 <= v < TWO_64
       case EightBytes(b) => |b| == 8
       case Text(body) => |body| < TWO_63
       case FourBytes(b) => |b| == 4
  }

  /** The field reader gives back every field and leaves the bytes behind it. */
  lemma {:induction false} FieldRoundTrip(f: Field, rest: Bytes)
    requires Encodable(f)
    ensures NextField(EncodeField(f) + rest) == Ok((f, rest))
  {
    match f.content
    case Number(v) =>
      assert EncodeField(f) + rest == Tag(f.number, 0) + (Encode(v) + rest);
      TagRoundTrip(f.number, 0, Encode(v) + rest);
      RoundTrip(v, rest);
    case EightBytes(b) =>
      assert EncodeField(f) + rest == Tag(f.number, 1) + (b + rest);
      TagRoundTrip(f.number, 1, b + rest);
    case Text(body) =>
      DelimitedRoundTrip(Request, f.number, body, rest);
    case FourBytes(b) =>
      assert EncodeField(f) + rest == Tag(f.number, 5) + (b + rest);
      TagRoundTrip(f.number, 5, b + rest);
  }
}
