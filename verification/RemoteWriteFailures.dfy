/** When the remote-write decoder panics: which fields do it, an input that does, and which requests never do. */
module RemoteWriteFailures {
  import opened Varint
  import opened RemoteWrite
  import opened RemoteWriteLaws
  import opened RemoteWriteEncoding

  // ---------------------------------------------------------------- one field

  /** An embedded or copied text panics just when its length has the sign bit of an int. */
  predicate NegativeLength(data: Bytes) {
    Decode(data).1 != 0 && Decode(data).0 >= TWO_63
  }

  /** Where skipping a text field leads, relative to the start of its length, as an int. */
  function SkipTarget(data: Bytes): int {
    Decode(data).1 + ToInt64(Decode(data).0)
  }

  /** A skipped text panics just when that is before the length or behind the end. */
  predicate SkipsOutside(data: Bytes) {
    Decode(data).1 != 0 && !(0 <= SkipTarget(data) <= |data|)
  }

  lemma {:induction false} ChunkPanics(level: Level, data: Bytes)
    requires |data| < TWO_63
    ensures Chunk(level, data) == Panic <==> NegativeLength(data)
  {
  }

  lemma {:induction false} SkipPanics(wireType: nat, data: Bytes)
    requires |data| < TWO_63
    ensures Advance(wireType, data) == Panic <==> wireType == 2 && SkipsOutside(data)
  {
  }

  /** What comes behind the tag of a length-delimited field. */
  predicate TextFollows(data: Bytes) {
    DecodeTag(data).2 != 0 && DecodeTag(data).1 == 2
  }

  function Behind(data: Bytes): Bytes {
    data[DecodeTag(data).2..]
  }

  lemma {:induction false} LabelFieldPanics(l: Label, data: Bytes)
    requires |data| < TWO_63
    ensures LabelStep(l, data) == Panic <==> TextFollows(data) && NegativeLength(Behind(data))
  {
    ChunkPanics(LabelLevel, Behind(data));
    SkipPanics(DecodeTag(data).1, Behind(data));
  }

  lemma {:induction false} SampleFieldPanics(s: Sample, data: Bytes)
    requires |data| < TWO_63
    ensures SampleStep(s, data) == Panic <==> TextFollows(data) && SkipsOutside(Behind(data))
  {
    SkipPanics(DecodeTag(data).1, Behind(data));
  }

  /** The embedded label or sample of a series' field panics. */
  predicate BodyPanics(data: Bytes) {
    var chunk := Chunk(Series, Behind(data));
    chunk.Ok? && ((DecodeTag(data).0 == 1 && LabelOf(chunk.value.0) == Panic)
                  || (DecodeTag(data).0 == 2 && SampleOf(chunk.value.0) == Panic))
  }

  lemma {:induction false} SeriesFieldPanics(ts: TimeSeries, data: Bytes)
    requires |data| < TWO_63
    ensures SeriesStep(ts, data) == Panic
       <==> TextFollows(data) && (NegativeLength(Behind(data)) || BodyPanics(data))
  {
    ChunkPanics(Series, Behind(data));
    SkipPanics(DecodeTag(data).1, Behind(data));
  }

  predicate EmbeddedPanics(data: Bytes) {
    var chunk := Chunk(Request, Behind(data));
    NegativeLength(Behind(data)) || (chunk.Ok? && SeriesOf(chunk.value.0) == Panic)
  }

  lemma {:induction false} RequestFieldPanics(all: seq<TimeSeries>, data: Bytes)
    requires |data| < TWO_63
    ensures RequestStep(all, data) == Panic
       <==> TextFollows(data) && if DecodeTag(data).0 == 1 then EmbeddedPanics(data) else SkipsOutside(Behind(data))
  {
    ChunkPanics(Request, Behind(data));
    SkipPanics(DecodeTag(data).1, Behind(data));
  }

  // ---------------------------------------------------------------- whole messages

  /** The bytes the decoder has before it at every field it starts to read. */
  function Visited<S(!new)>(step: Step<S>, acc: S, data: Bytes): seq<(S, Bytes)>
    requires Consumes(step)
    decreases |data|
  {
    if data == [] then []
    else if !step(acc, data).Ok? then [(acc, data)]
    else [(acc, data)] + Visited(step, step(acc, data).value.0, step(acc, data).value.1)
  }

  /** A message panics exactly when some field that is reached does. */
  lemma {:induction false} PanicIsReached<S(!new)>(step: Step<S>, acc: S, data: Bytes)
    requires Consumes(step)
    ensures Run(step, acc, data) == Panic
       <==> exists v :: v in Visited(step, acc, data) && step(v.0, v.1) == Panic
    decreases |data|
  {
    if data != [] {
      var here := (acc, data);
      assert here in Visited(step, acc, data);
      if step(acc, data).Ok? {
        var (next, rest) := step(acc, data).value;
        PanicIsReached(step, next, rest);
        var later := Visited(step, next, rest);
        assert forall v :: v in Visited(step, acc, data) <==> v == here || v in later;
      }
    }
  }

  /** Two bytes are enough: an unknown field 2 that claims five bytes, with none behind it. */
  lemma {:induction false} TwoBytesPanic()
    ensures RequestOf([18, 5]) == Panic
  {
    RoundTrip(18, [5]);
    RoundTrip(5, []);
    assert Encode(18) + [5] == [18, 5] && Encode(5) + [] == [5];
    assert Behind([18, 5]) == [5];
    RequestFieldPanics([], [18, 5]);
  }

  // ---------------------------------------------------------------- requests that never panic

  /** The bodies of the embedded labels and samples are well framed too. */
  ghost predicate FramedSeries(data: Bytes) {
    FieldsOf(data).Ok? && forall f: Field ::
      f in FieldsOf(data).value && f.content.Text? && (f.number == 1 || f.number == 2) ==> FieldsOf(f.content.body).Ok?
  }

  ghost predicate FramedRequest(data: Bytes) {
    FieldsOf(data).Ok? && forall f: Field ::
      f in FieldsOf(data).value && f.content.Text? && f.number == 1 ==> FramedSeries(f.content.body)
  }

  /** No text is longer than the message. */
  predicate Shorter(f: Field, n: nat) {
    f.content.Text? ==> |f.content.body| <= n
  }

  lemma {:induction false} BodiesShorter(fs: seq<Field>, data: Bytes, n: nat)
    requires |data| <= n && Run(FieldStep, fs, data).Ok? && forall f :: f in fs ==> Shorter(f, n)
    ensures forall f :: f in Run(FieldStep, fs, data).value ==> Shorter(f, n)
    decreases |data|
  {
    if data != [] {
      RunField(FieldStep, fs, data);
      var (f, rest) := NextField(data).value;
      BodiesShorter(fs + [f], rest, n);
    }
  }

  lemma {:induction false} FramedSeriesDecodes(data: Bytes)
    requires |data| < TWO_63 && FramedSeries(data)
    ensures SeriesOf(data) == Ok(SeriesMeaning(FieldsOf(data).value))
  {
    BodiesShorter([], data, |data|);
    forall f | f in FieldsOf(data).value ensures BodyDecodes(f) {
      if f.content.Text? {
        assert Shorter(f, |data|);
        if f.number == 1 {
          LabelLastOneWins(NO_LABEL, f.content.body);
        } else if f.number == 2 {
          SampleLastOneWins(NO_SAMPLE, f.content.body);
        }
      }
    }
    SeriesIsItsFields(data);
  }

  /** A request that is well framed at every level decodes to what its fields mean, and so never panics or fails. */
  lemma {:induction false} FramedRequestDecodes(data: Bytes)
    requires |data| < TWO_63 && FramedRequest(data)
    ensures RequestOf(data) == Ok(RequestMeaning(FieldsOf(data).value))
  {
    BodiesShorter([], data, |data|);
    forall f | f in FieldsOf(data).value ensures SeriesDecodes(f) {
      if f.content.Text? && f.number == 1 {
        assert Shorter(f, |data|);
        FramedSeriesDecodes(f.content.body);
      }
    }
    RequestIsItsFields(data);
  }

  // ---------------------------------------------------------------- what never decodes

  /** Groups and the two unused wire types are errors at every level, whatever the field number. */
  lemma {:induction false} OddWireTypesFail(number: nat, wireType: nat, rest: Bytes)
    requires wireType in {3, 4, 6, 7} && number * 8 + wireType < TWO_64
    ensures var data := Tag(number, wireType) + rest;
            && (forall all: seq<TimeSeries> :: RequestStep(all, data) == Err(UnknownWireType(wireType)))
            && (forall ts: TimeSeries :: SeriesStep(ts, data) == Err(UnknownWireType(wireType)))
            && (forall l: Label :: LabelStep(l, data) == Err(UnknownWireType(wireType)))
            && (forall x: Sample :: SampleStep(x, data) == Err(UnknownWireType(wireType)))
  {
    TagRoundTrip(number, wireType, rest);
  }

  /** A field that is cut off anywhere is not read. */
  lemma {:induction false} CutFails<S(!new)>(step: Step<S>, acc: S, whole: Bytes, p: Bytes)
    requires Stable(step) && step(acc, whole).Ok? && step(acc, whole).value.1 == [] && p < whole
    ensures !step(acc, p).Ok?
  {
    var lost := whole[|p|..];
    assert p + lost == whole;
    assert step(acc, p + lost) == step(acc, whole);
  }

  /** So a request that ends within the encoding of a series does not decode, however much came before. */
  lemma {:induction false} CutRequestFails(all: seq<TimeSeries>, ts: TimeSeries, compact: bool, p: Bytes)
    requires |EncodeRequest(all, compact)| < TWO_63 && |EncodeSeries(ts, compact)| < TWO_63
    requires p != [] && p < Delimited(1, EncodeSeries(ts, compact))
    ensures !RequestOf(EncodeRequest(all, compact) + p).Ok?
  {
    var body := EncodeSeries(ts, compact);
    var whole := Delimited(1, body);
    RequestRoundTrip(all, compact);
    SeriesRoundTrip(ts, compact);
    DelimitedRoundTrip(Request, 1, body, []);
    assert whole + [] == whole;
    assert RequestStep(all, whole) == Ok((all + [ts], []));
    RequestStepStable();
    CutFails(RequestStep, all, whole, p);
    RunField(RequestStep, all, p);
    RunConcat(RequestStep, [], EncodeRequest(all, compact), p);
  }
}
