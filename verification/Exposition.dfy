/** One line of the Prometheus text exposition format: the quote-aware splitter and the line parser. */
module Exposition {
  datatype Option<T> = None | Some(value: T)

  // ---------------------------------------------------------------- library calls

  /** Position of the first c, or -1. */
  function IndexOf(s: string, c: char): (i: int)
    ensures -1 <= i < |s|
    ensures i == -1 <==> c !in s
    ensures i >= 0 ==> s[i] == c && c !in s[..i]
  {
    if s == [] then -1
    else
      var i := IndexOf(s[..|s| - 1], c);
      if i >= 0 then
        assert s[..|s| - 1][..i] == s[..i];
        i
      else if s[|s| - 1] == c then |s| - 1
      else -1
  }

  function TrimLeft(s: string, drop: char -> bool): string {
    if s != [] && drop(s[0]) then TrimLeft(s[1..], drop) else s
  }

  function TrimRight(s: string, drop: char -> bool): string {
    if s != [] && drop(s[|s| - 1]) then TrimRight(s[..|s| - 1], drop) else s
  }

  function Trim(s: string, drop: char -> bool): string {
    TrimRight(TrimLeft(s, drop), drop)
  }

  predicate IsSpace(c: char) {
    '\U{0009}' <= c <= '\U{000D}' || c == ' ' || c == '\U{0085}' || c == '\U{00A0}' || c == '\U{1680}'
    || '\U{2000}' <= c <= '\U{200A}' || c == '\U{2028}' || c == '\U{2029}' || c == '\U{202F}'
    || c == '\U{205F}' || c == '\U{3000}'
  }

  predicate IsQuote(c: char) { c == '"' }

  function TrimSpace(s: string): string { Trim(s, IsSpace) }

  function Unquote(s: string): string { Trim(s, IsQuote) }

  /** The words read so far, and the one being read. */
  datatype Fields = Fields(done: seq<string>, current: string)

  function EndField(f: Fields): seq<string> {
    if f.current == [] then f.done else f.done + [f.current]
  }

  function ReadFields(f: Fields, s: string): Fields {
    if s == [] then f
    else
      var g, c := ReadFields(f, s[..|s| - 1]), s[|s| - 1];
      if IsSpace(c) then Fields(EndField(g), []) else Fields(g.done, g.current + [c])
  }

  /** The words of a line, maximal runs without white space. */
  function Words(s: string): seq<string> {
    EndField(ReadFields(Fields([], []), s))
  }

  // ---------------------------------------------------------------- splitting

  datatype Mode = Plain | Quoted | Escaped(quoted: bool)

  function Next(m: Mode, c: char): Mode {
    match m
    case Escaped(q) => if q then Quoted else Plain
    case Plain => if c == '\\' then Escaped(false) else if c == '"' then Quoted else Plain
    case Quoted => if c == '\\' then Escaped(true) else if c == '"' then Plain else Quoted
  }

  function After(m: Mode, s: string): Mode {
    if s == [] then m else Next(After(m, s[..|s| - 1]), s[|s| - 1])
  }

  datatype Lexer = Lexer(pieces: seq<string>, current: string, mode: Mode)

  const START := Lexer([], [], Plain)

  function Flush(l: Lexer): seq<string> {
    if l.current == [] then l.pieces else l.pieces + [l.current]
  }

  function Step(l: Lexer, c: char): Lexer {
    if l.mode == Plain && c == ',' then Lexer(Flush(l), [], Plain)
    else Lexer(l.pieces, l.current + [c], Next(l.mode, c))
  }

  function Lex(l: Lexer, s: string): Lexer {
    if s == [] then l else Step(Lex(l, s[..|s| - 1]), s[|s| - 1])
  }

  function Split(s: string): seq<string> {
    Flush(Lex(START, s))
  }

  function ModeOf(inQuote: bool, escaped: bool): Mode {
    if escaped then Escaped(inQuote) else if inQuote then Quoted else Plain
  }

  method SplitLabels(s: string) returns (result: seq<string>)
    ensures result == Split(s)
  {
    result := [];
    var current: string := [];
    var inQuote, escaped := false, false;
    var i := 0;
    while i < |s|
      invariant 0 <= i <= |s|
      invariant Lex(START, s[..i]) == Lexer(result, current, ModeOf(inQuote, escaped))
    {
      var ch := s[i];
      assert s[..i + 1][..i] == s[..i];
      i := i + 1;
      if escaped {
        current := current + [ch];
        escaped := false;
        continue;
      }
      if ch == '\\' {
        escaped := true;
        current := current + [ch];
        continue;
      }
      if ch == '"' {
        inQuote := !inQuote;
        current := current + [ch];
        continue;
      }
      if ch == ',' && !inQuote {
        if |current| > 0 {
          result := result + [current];
          current := [];
        }
        continue;
      }
      current := current + [ch];
    }
    assert s[..i] == s;
    if |current| > 0 {
      result := result + [current];
    }
  }

  // ---------------------------------------------------------------- parsing

  datatype Sample = Sample(
    name: string, labels: map<string, string>,
    chart: string, family: string, dimension: string, instance: string, unit: string, value: real)

  /** A label pair is stored under its key, and five keys also fill a field. */
  function Store(x: Sample, key: string, val: string): Sample {
    var y := x.(labels := x.labels[key := val]);
    if key == "chart" then y.(chart := val)
    else if key == "family" then y.(family := val)
    else if key == "dimension" then y.(dimension := val)
    else if key == "instance" then y.(instance := val)
    else if key == "units" then y.(unit := val)
    else y
  }

  function KeyText(pair: string): string
    requires '=' in pair
  {
    TrimSpace(pair[..IndexOf(pair, '=')])
  }

  function ValueText(pair: string): string
    requires '=' in pair
  {
    Unquote(TrimSpace(pair[IndexOf(pair, '=') + 1..]))
  }

  function ReadPairs(x: Sample, pairs: seq<string>): Sample {
    if pairs == [] then x
    else
      var y := ReadPairs(x, pairs[..|pairs| - 1]);
      var pair := pairs[|pairs| - 1];
      if '=' in pair then Store(y, KeyText(pair), ValueText(pair)) else y
  }

  type Scanner = string -> Option<real>

  const SPECIAL: seq<string> := ["+Inf", "Inf", "-Inf", "NaN"]

  function ParseFloat(s: string, scan: Scanner): Option<real> {
    var t := TrimSpace(s);
    if t in SPECIAL then None else scan(t)
  }

  const EMPTY: Sample := Sample([], map[], [], [], [], [], [], 0.0)

  function LabelsOf(text: string): Sample {
    ReadPairs(EMPTY, Split(text))
  }

  /** What a line says before its value text is read as a number. */
  datatype Head = Head(sample: Sample, name: string, text: string)

  datatype Parts = Braced(name: string, body: string, rest: string) | Bare(words: seq<string>)

  /** The first braces of a line, wherever they stand, enclose its labels. */
  function PartsOf(line: string): Parts {
    var open, close := IndexOf(line, '{'), IndexOf(line, '}');
    if 0 <= open < close then Braced(line[..open], line[open + 1..close], line[close + 1..]) else Bare(Words(line))
  }

  function HeadOf(line: string): Option<Head> {
    match PartsOf(line)
    case Braced(name, body, rest) => Some(Head(LabelsOf(body), name, TrimSpace(rest)))
    case Bare(words) => if |words| < 2 then None else Some(Head(EMPTY, words[0], words[1]))
  }

  function Finish(h: Head, scan: Scanner): Option<Sample> {
    var v := ParseFloat(h.text, scan);
    var dimension := if h.sample.dimension == [] then h.name else h.sample.dimension;
    if v.None? then None else Some(h.sample.(name := h.name, dimension := dimension, value := v.value))
  }

  function Parse(line: string, scan: Scanner): Option<Sample> {
    var h := HeadOf(line);
    if h.None? then None else Finish(h.value, scan)
  }

  method ParseLine(line: string, scan: Scanner) returns (result: Option<Sample>)
    ensures result == Parse(line, scan)
  {
    var head := ReadHead(line);
    if head.None? {
      return None;
    }
    var sample := head.value.sample.(name := head.value.name);
    if sample.dimension == [] {
      sample := sample.(dimension := head.value.name);
    }
    var val := ParseFloat(head.value.text, scan);
    if val.None? {
      return None;
    }
    return Some(sample.(value := val.value));
  }

  method ReadHead(line: string) returns (head: Option<Head>)
    ensures head == HeadOf(line)
  {
    var parts := CutLine(line);
    match parts
    case Braced(name, body, rest) =>
      var sample := ParseLabels(body);
      return Some(Head(sample, name, TrimSpace(rest)));
    case Bare(words) =>
      if |words| < 2 {
        return None;
      }
      return Some(Head(EMPTY, words[0], words[1]));
  }

  method CutLine(line: string) returns (parts: Parts)
    ensures parts == PartsOf(line)
  {
    var labelStart, labelEnd := IndexOf(line, '{'), IndexOf(line, '}');
    if labelStart >= 0 && labelEnd > labelStart {
      return Braced(line[..labelStart], line[labelStart + 1..labelEnd], line[labelEnd + 1..]);
    }
    return Bare(Words(line));
  }

  method ParseLabels(labelsStr: string) returns (sample: Sample)
    ensures sample == LabelsOf(labelsStr)
  {
    var pairs := SplitLabels(labelsStr);
    sample := EMPTY;
    for i := 0 to |pairs|
      invariant sample == ReadPairs(EMPTY, pairs[..i])
    {
      assert pairs[..i + 1][..i] == pairs[..i];
      var pair := pairs[i];
      var eqIdx := IndexOf(pair, '=');
      if eqIdx < 0 {
        continue;
      }
      var key := TrimSpace(pair[..eqIdx]);
      var val := Unquote(TrimSpace(pair[eqIdx + 1..]));
      sample := sample.(labels := sample.labels[key := val]);
      match key {
        case "chart" => sample := sample.(chart := val);
        case "family" => sample := sample.(family := val);
        case "dimension" => sample := sample.(dimension := val);
        case "instance" => sample := sample.(instance := val);
        case "units" => sample := sample.(unit := val);
        case _ =>
      }
    }
    assert pairs[..|pairs|] == pairs;
  }
}
