/** The hand-rolled decoder of a Prometheus remote-write request: WriteRequest holds TimeSeries,
    TimeSeries holds Labels and Samples, and every level skips the fields it does not know. */
module RemoteWrite {
  import opened Varint

  datatype Level = Request | Series | LabelLevel | SampleLevel

  datatype ParseError =
    | InvalidTag(level: Level)
    | InvalidLength(level: Level)
    | Truncated(level: Level)
    | TruncatedDouble
    | InvalidTimestamp
    | InvalidVarintSkip
    | TruncatedFixed64
    | InvalidLengthSkip
    | TruncatedFixed32
    | UnknownWireType(wireType: nat)

  /** A value, an error return, or a slice expression out of range. */
  datatype Outcome<+T> = Ok(value: T) | Err(error: ParseError) | Panic {
    predicate IsFailure() { !Ok? }

    function PropagateFailure<U>(): Outcome<U>
      requires IsFailure()
    {
      if Err? then Err(error) else Panic
    }

    function Extract(): T
      requires Ok?
    {
      value
    }
  }

  type Bytes = seq<Byte>
  type Int64 = v: int | -TWO_63 <= v < TWO_63
  type Bits64 = v: int | 0 <= v < TWO_64

  /** A sample's value is kept as the 64-bit pattern of its double. */
  datatype Sample = Sample(timestampMs: Int64, bits: Bits64)
  datatype Label = Label(name: Bytes, value: Bytes)
  datatype TimeSeries = TimeSeries(labels: seq<Label>, samples: seq<Sample>)

  const NO_LABEL := Label([], [])
  const NO_SAMPLE := Sample(0, 0)
  const NO_SERIES := TimeSeries([], [])

  // ---------------------------------------------------------------- one field

  function DecodeTag(data: Bytes): (r: (nat, nat, nat))
    ensures r.2 <= |data|
  {
    var (v, n) := Decode(data);
    if n == 0 then (0, 0, 0) else (v / 8, v % 8, n)
  }

  /** Bytes a field's payload takes by its wire type. The length of a length-delimited payload goes
      through a signed conversion and a wrapping addition and is not compared with what remains. */
  function SkipField(wireType: nat, data: Bytes): Outcome<int> {
    match wireType
    case 0 => var n := Decode(data).1; if n == 0 then Err(InvalidVarintSkip) else Ok(n)
    case 1 => if |data| < 8 then Err(TruncatedFixed64) else Ok(8)
    case 2 =>
      var (len, n) := Decode(data);
      if n == 0 then Err(InvalidLengthSkip) else Ok(WrapInt64(n + ToInt64(len)))
    case 5 => if |data| < 4 then Err(TruncatedFixed32) else Ok(4)
    case _ => Err(UnknownWireType(wireType))
  }

  function WrapInt64(v: int): int {
    ToInt64(v % TWO_64)
  }

  /** `data[skip:]` after `skipField`. */
  function Advance(wireType: nat, data: Bytes): (rest: Outcome<Bytes>)
    ensures rest.Ok? ==> |rest.value| <= |data|
  {
    var skip :- SkipField(wireType, data);
    if 0 <= skip <= |data| then Ok(data[skip..]) else Panic
  }

  /** A length prefix and the two slices `data[:len]` and `data[len:]` behind it. */
  function Chunk(level: Level, data: Bytes): (r: Outcome<(Bytes, Bytes)>)
    ensures r.Ok? ==> |r.value.0| + |r.value.1| <= |data|
  {
    var (len, n) := Decode(data);
    if n == 0 then Err(InvalidLength(level))
    else if ToInt64(len) > |data| - n then Err(Truncated(level))
    else if len > |data| - n then Panic
    else Ok((data[n..][..len], data[n..][len..]))
  }

  /** `binary.LittleEndian.Uint64`. */
  function LittleEndian(s: Bytes): nat {
    if s == [] then 0 else s[0] + 256 * LittleEndian(s[1..])
  }

  lemma {:induction false} LittleEndianBound(s: Bytes)
    requires |s| == 8
    ensures LittleEndian(s) < TWO_64
  {
    assert LittleEndian(s) == s[0] + 256 * LittleEndian(s[1..]);
    assert LittleEndian(s[1..]) == s[1] + 256 * LittleEndian(s[1..][1..]);
    assert s[1..][1..] == s[2..] && s[2..][1..] == s[3..] && s[3..][1..] == s[4..];
    assert s[4..][1..] == s[5..] && s[5..][1..] == s[6..] && s[6..][1..] == s[7..] && s[7..][1..] == [];
    assert LittleEndian(s[2..]) == s[2] + 256 * LittleEndian(s[3..]);
    assert LittleEndian(s[3..]) == s[3] + 256 * LittleEndian(s[4..]);
    assert LittleEndian(s[4..]) == s[4] + 256 * LittleEndian(s[5..]);
    assert LittleEndian(s[5..]) == s[5] + 256 * LittleEndian(s[6..]);
    assert LittleEndian(s[6..]) == s[6] + 256 * LittleEndian(s[7..]);
    assert LittleEndian(s[7..]) == s[7] + 256 * LittleEndian([]);
  }

  /** The bit pattern in the eight bytes of a double. */
  function Double(s: Bytes): Bits64
    requires |s| == 8
  {
    LittleEndianBound(s);
    LittleEndian(s)
  }

  // ---------------------------------------------------------------- one field of each message

  /** A step reads one field: the message so far becomes the next one, and the bytes behind the field are left. */
  function LabelStep(l: Label, data: Bytes): (r: Outcome<(Label, Bytes)>)
    ensures r.Ok? ==> |r.value.1| < |data|
  {
    var (field, wireType, n) := DecodeTag(data);
    if n == 0 then Err(InvalidTag(LabelLevel))
    else if wireType == 2 then
      var (text, rest) :- Chunk(LabelLevel, data[n..]);
      Ok((if field == 1 then l.(name := text) else if field == 2 then l.(value := text) else l, rest))
    else
      var rest :- Advance(wireType, data[n..]);
      Ok((l, rest))
  }

  function SampleStep(s: Sample, data: Bytes): (r: Outcome<(Sample, Bytes)>)
    ensures r.Ok? ==> |r.value.1| < |data|
  {
    var (field, wireType, n) := DecodeTag(data);
    if n == 0 then Err(InvalidTag(SampleLevel))
    else if field == 1 && wireType == 1 then
      var d := data[n..];
      if |d| < 8 then Err(TruncatedDouble) else Ok((s.(bits := Double(d[..8])), d[8..]))
    else if field == 2 && wireType == 0 then
      var d := data[n..];
      var (v, taken) := Decode(d);
      if taken == 0 then Err(InvalidTimestamp) else Ok((s.(timestampMs := ToInt64(v)), d[taken..]))
    else
      var rest :- Advance(wireType, data[n..]);
      Ok((s, rest))
  }

  function SeriesStep(ts: TimeSeries, data: Bytes): (r: Outcome<(TimeSeries, Bytes)>)
    ensures r.Ok? ==> |r.value.1| < |data|
  {
    var (field, wireType, n) := DecodeTag(data);
    if n == 0 then Err(InvalidTag(Series))
    else if wireType == 2 then
      var (body, rest) :- Chunk(Series, data[n..]);
      if field == 1 then
        var l :- LabelOf(body);
        Ok((ts.(labels := ts.labels + [l]), rest))
      else if field == 2 then
        var s :- SampleOf(body);
        Ok((ts.(samples := ts.samples + [s]), rest))
      else Ok((ts, rest))
    else
      var rest :- Advance(wireType, data[n..]);
      Ok((ts, rest))
  }

  function RequestStep(all: seq<TimeSeries>, data: Bytes): (r: Outcome<(seq<TimeSeries>, Bytes)>)
    ensures r.Ok? ==> |r.value.1| < |data|
  {
    var (field, wireType, n) := DecodeTag(data);
    if n == 0 then Err(InvalidTag(Request))
    else if field == 1 && wireType == 2 then
      var (body, rest) :- Chunk(Request, data[n..]);
      var ts :- SeriesOf(body);
      Ok((all + [ts], rest))
    else
      var rest :- Advance(wireType, data[n..]);
      Ok((all, rest))
  }

  // ---------------------------------------------------------------- whole messages

  type Step<!S> = (S, Bytes) -> Outcome<(S, Bytes)>

  /** A step that succeeds takes at least one byte. */
  ghost predicate Consumes<S(!new)>(step: Step<S>) {
    forall acc: S, data: Bytes :: step(acc, data).Ok? ==> |step(acc, data).value.1| < |data|
  }

  /** Fields are read one after the other until no byte is left. */
  function Run<S(!new)>(step: Step<S>, acc: S, data: Bytes): Outcome<S>
    requires Consumes(step)
    decreases |data|
  {
    if data == [] then Ok(acc)
    else
      var (next, rest) :- step(acc, data);
      Run(step, next, rest)
  }

  lemma {:induction false} RunField<S(!new)>(step: Step<S>, acc: S, data: Bytes)
    requires Consumes(step) && data != []
    ensures step(acc, data).Ok? ==>
              Run(step, acc, data) == Run(step, step(acc, data).value.0, step(acc, data).value.1)
    ensures !step(acc, data).Ok? ==> Run(step, acc, data) == step(acc, data).PropagateFailure()
  {
  }

  function LabelOf(data: Bytes): Outcome<Label> { Run(LabelStep, NO_LABEL, data) }

  function SampleOf(data: Bytes): Outcome<Sample> { Run(SampleStep, NO_SAMPLE, data) }

  function SeriesOf(data: Bytes): Outcome<TimeSeries> { Run(SeriesStep, NO_SERIES, data) }

  function RequestOf(data: Bytes): Outcome<seq<TimeSeries>> { Run(RequestStep, [], data) }

  // ---------------------------------------------------------------- the loops

  method ParseLabel(input: Bytes) returns (r: Outcome<Label>)
    ensures r == LabelOf(input)
  {
    var l := NO_LABEL;
    var data := input;
    while |data| > 0
      invariant Run(LabelStep, l, data) == LabelOf(input)
      decreases |data|
    {
      var (field, wireType, n) := DecodeTag(data);
      if n == 0 {
        return Err(InvalidTag(LabelLevel));
      }
      data := data[n..];
      if wireType == 2 {
        var chunk := Chunk(LabelLevel, data);
        if !chunk.Ok? {
          return chunk.PropagateFailure();
        }
        var (text, rest) := chunk.value;
        if field == 1 {
          l := l.(name := text);
        } else if field == 2 {
          l := l.(value := text);
        }
        data := rest;
      } else {
        var skip := Advance(wireType, data);
        if !skip.Ok? {
          return skip.PropagateFailure();
        }
        data := skip.value;
      }
    }
    return Ok(l);
  }

  method ParseSample(input: Bytes) returns (r: Outcome<Sample>)
    ensures r == SampleOf(input)
  {
    var s := NO_SAMPLE;
    var data := input;
    while |data| > 0
      invariant Run(SampleStep, s, data) == SampleOf(input)
      decreases |data|
    {
      var (field, wireType, n) := DecodeTag(data);
      if n == 0 {
        return Err(InvalidTag(SampleLevel));
      }
      data := data[n..];
      if field == 1 && wireType == 1 {
        if |data| < 8 {
          return Err(TruncatedDouble);
        }
        s := s.(bits := Double(data[..8]));
        data := data[8..];
      } else if field == 2 && wireType == 0 {
        var v, taken := DecodeVarint(data);
        if taken == 0 {
          return Err(InvalidTimestamp);
        }
        s := s.(timestampMs := ToInt64(v));
        data := data[taken..];
      } else {
        var skip := Advance(wireType, data);
        if !skip.Ok? {
          return skip.PropagateFailure();
        }
        data := skip.value;
      }
    }
    return Ok(s);
  }

  method ParseTimeSeries(input: Bytes) returns (r: Outcome<TimeSeries>)
    ensures r == SeriesOf(input)
  {
    var ts := NO_SERIES;
    var data := input;
    while |data| > 0
      invariant Run(SeriesStep, ts, data) == SeriesOf(input)
      decreases |data|
    {
      var (field, wireType, n) := DecodeTag(data);
      if n == 0 {
        return Err(InvalidTag(Series));
      }
      data := data[n..];
      if wireType == 2 {
        var chunk := Chunk(Series, data);
        if !chunk.Ok? {
          return chunk.PropagateFailure();
        }
        var (body, rest) := chunk.value;
        if field == 1 {
          var l := ParseLabel(body);
          if !l.Ok? {
            return l.PropagateFailure();
          }
          ts := ts.(labels := ts.labels + [l.value]);
        } else if field == 2 {
          var s := ParseSample(body);
          if !s.Ok? {
            return s.PropagateFailure();
          }
          ts := ts.(samples := ts.samples + [s.value]);
        }
        data := rest;
      } else {
        var skip := Advance(wireType, data);
        if !skip.Ok? {
          return skip.PropagateFailure();
        }
        data := skip.value;
      }
    }
    return Ok(ts);
  }

  method ParseWriteRequest(input: Bytes) returns (r: Outcome<seq<TimeSeries>>)
    ensures r == RequestOf(input)
  {
    var all: seq<TimeSeries> := [];
    var data := input;
    while |data| > 0
      invariant Run(RequestStep, all, data) == RequestOf(input)
      decreases |data|
    {
      var (field, wireType, n) := DecodeTag(data);
      if n == 0 {
        return Err(InvalidTag(Request));
      }
      data := data[n..];
      if field == 1 && wireType == 2 {
        var chunk := Chunk(Request, data);
        if !chunk.Ok? {
          return chunk.PropagateFailure();
        }
        var (body, rest) := chunk.value;
        var ts := ParseTimeSeries(body);
        if !ts.Ok? {
          return ts.PropagateFailure();
        }
        all := all + [ts.value];
        data := rest;
      } else {
        var skip := Advance(wireType, data);
        if !skip.Ok? {
          return skip.PropagateFailure();
        }
        data := skip.value;
      }
    }
    return Ok(all);
  }
}
