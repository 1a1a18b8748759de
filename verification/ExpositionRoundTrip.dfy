/** Lines printed in the text format, version 0.0.4, and what the line parser makes of them. */
module ExpositionRoundTrip {
  import opened Exposition
  import opened ExpositionLaws

  datatype Pair = Pair(key: string, value: string)

  /** Label values are printed with backslash, quote and line feed escaped. */
  function EscapeChar(c: char): string {
    if c == '\\' then ['\\', '\\']
    else if c == '"' then ['\\', '"']
    else if c == '\n' then ['\\', 'n']
    else [c]
  }

  function Escape(v: string): string {
    if v == [] then [] else Escape(v[..|v| - 1]) + EscapeChar(v[|v| - 1])
  }

  function InQuotes(s: string): string {
    ['"'] + s + ['"']
  }

  function PairText(p: Pair): string {
    p.key + ['='] + InQuotes(Escape(p.value))
  }

  function Texts(ps: seq<Pair>): seq<string> {
    if ps == [] then [] else Texts(ps[..|ps| - 1]) + [PairText(ps[|ps| - 1])]
  }

  function Print(name: string, ps: seq<Pair>, text: string): string {
    name + ['{'] + Join(Texts(ps)) + ['}'] + text
  }

  predicate GoodKey(k: string) {
    '=' !in k && ',' !in k && '"' !in k && '\\' !in k && '}' !in k && TrimSpace(k) == k
  }

  predicate GoodName(name: string) {
    '{' !in name && '}' !in name
  }

  /** Distinct good keys. */
  predicate GoodPairs(ps: seq<Pair>) {
    ps == []
    || (GoodPairs(ps[..|ps| - 1]) && GoodKey(ps[|ps| - 1].key) && ps[|ps| - 1].key !in MapOf(ps[..|ps| - 1]))
  }

  function MapOf(ps: seq<Pair>): map<string, string> {
    if ps == [] then map[] else MapOf(ps[..|ps| - 1])[ps[|ps| - 1].key := ps[|ps| - 1].value]
  }

  /** Values that are printed as they are and hold no closing brace. */
  predicate Simple(v: string) {
    '}' !in v && '"' !in v && '\\' !in v && '\n' !in v
  }

  // ---------------------------------------------------------------- trimming

  predicate Blank(s: string) {
    forall c :: c in s ==> IsSpace(c)
  }

  lemma {:induction false} TrimLeftIdle(s: string, drop: char -> bool)
    requires s == [] || !drop(s[0])
    ensures TrimLeft(s, drop) == s
  {
  }

  lemma {:induction false} TrimIdle(s: string, drop: char -> bool)
    requires s == [] || (!drop(s[0]) && !drop(s[|s| - 1]))
    ensures Trim(s, drop) == s
  {
  }

  lemma {:induction false} TrimLeftShape(s: string, drop: char -> bool)
    ensures TrimLeft(s, drop) == [] || !drop(TrimLeft(s, drop)[0])
    ensures forall c :: c in TrimLeft(s, drop) ==> c in s
  {
    if s != [] && drop(s[0]) {
      TrimLeftShape(s[1..], drop);
    }
  }

  lemma {:induction false} TrimRightShape(s: string, drop: char -> bool)
    ensures var r := TrimRight(s, drop);
            r == [] || (r[0] == s[0] && !drop(r[|r| - 1]))
    ensures forall c :: c in TrimRight(s, drop) ==> c in s
  {
    if s != [] && drop(s[|s| - 1]) {
      TrimRightShape(s[..|s| - 1], drop);
    }
  }

  lemma {:induction false} TrimTwice(s: string, drop: char -> bool)
    ensures Trim(Trim(s, drop), drop) == Trim(s, drop)
  {
    TrimLeftShape(s, drop);
    TrimRightShape(TrimLeft(s, drop), drop);
    TrimIdle(Trim(s, drop), drop);
  }

  lemma {:induction false} TrimChars(s: string, drop: char -> bool, c: char)
    requires c !in s
    ensures c !in Trim(s, drop)
  {
    TrimLeftShape(s, drop);
    TrimRightShape(TrimLeft(s, drop), drop);
  }

  function Count(s: string, c: char): nat {
    if s == [] then 0 else Count(s[..|s| - 1], c) + if s[|s| - 1] == c then 1 else 0
  }

  lemma {:induction false} CountConcat(a: string, b: string, c: char)
    ensures Count(a + b, c) == Count(a, c) + Count(b, c)
  {
    if b == [] {
      assert a + b == a;
    } else {
      assert (a + b)[..|a + b| - 1] == a + b[..|b| - 1];
      CountConcat(a, b[..|b| - 1], c);
    }
  }

  lemma {:induction false} CountOne(d: char, c: char)
    ensures Count([d], c) == if d == c then 1 else 0
  {
    assert [d][..0] == [];
  }

  lemma {:induction false} CountAbsent(s: string, c: char)
    ensures Count(s, c) == 0 <==> c !in s
  {
    if s != [] {
      CountAbsent(s[..|s| - 1], c);
    }
  }

  lemma {:induction false} TrimLeftCount(s: string, drop: char -> bool, c: char)
    requires !drop(c)
    ensures Count(TrimLeft(s, drop), c) == Count(s, c)
  {
    if s != [] && drop(s[0]) {
      TrimLeftCount(s[1..], drop, c);
      CountConcat([s[0]], s[1..], c);
      CountOne(s[0], c);
      assert [s[0]] + s[1..] == s;
    }
  }

  lemma {:induction false} TrimRightCount(s: string, drop: char -> bool, c: char)
    requires !drop(c)
    ensures Count(TrimRight(s, drop), c) == Count(s, c)
  {
    if s != [] && drop(s[|s| - 1]) {
      TrimRightCount(s[..|s| - 1], drop, c);
    }
  }

  // ---------------------------------------------------------------- escaping

  lemma {:induction false} CountEscapeChar(c: char)
    ensures Count(EscapeChar(c), '\\') == (if c == '\\' then 2 else if c == '"' || c == '\n' then 1 else 0)
  {
    var e := EscapeChar(c);
    assert |e| == 2 ==> e[..1] == [e[0]];
    CountOne(e[0], '\\');
  }

  lemma {:induction false} CountEscape(v: string)
    ensures Count(Escape(v), '\\') == 2 * Count(v, '\\') + Count(v, '"') + Count(v, '\n')
  {
    if v != [] {
      CountEscape(v[..|v| - 1]);
      CountConcat(Escape(v[..|v| - 1]), EscapeChar(v[|v| - 1]), '\\');
      CountEscapeChar(v[|v| - 1]);
    }
  }

  /** What reading a printed value gives. */
  function Seen(v: string): string {
    Unquote(InQuotes(Escape(v)))
  }

  lemma {:induction false} EscapeIdle(v: string)
    requires '"' !in v && '\\' !in v && '\n' !in v
    ensures Escape(v) == v
  {
    if v != [] {
      EscapeIdle(v[..|v| - 1]);
    }
  }

  lemma {:induction false} SeenPlain(v: string)
    requires '"' !in v
    ensures Unquote(InQuotes(v)) == v
  {
    var q := InQuotes(v);
    assert q[1..] == v + ['"'];
    if v == [] {
      assert TrimLeft(q, IsQuote) == TrimLeft(['"'], IsQuote);
      assert ['"'][1..] == [];
    } else {
      TrimLeftIdle(v + ['"'], IsQuote);
      assert TrimLeft(q, IsQuote) == v + ['"'];
      assert (v + ['"'])[..|v|] == v;
      assert TrimRight(v + ['"'], IsQuote) == TrimRight(v, IsQuote);
      assert v[|v| - 1] in v;
    }
  }

  lemma {:induction false} SeenCount(v: string)
    ensures Count(Seen(v), '\\') == 2 * Count(v, '\\') + Count(v, '"') + Count(v, '\n')
  {
    CountEscape(v);
    CountConcat(['"'], Escape(v), '\\');
    CountConcat(['"'] + Escape(v), ['"'], '\\');
    CountOne('"', '\\');
    TrimLeftCount(InQuotes(Escape(v)), IsQuote, '\\');
    TrimRightCount(TrimLeft(InQuotes(Escape(v)), IsQuote), IsQuote, '\\');
  }

  /** A printed value is read back unchanged just when nothing in it was escaped. */
  lemma {:induction false} SeenIff(v: string)
    ensures Seen(v) == v <==> '"' !in v && '\\' !in v && '\n' !in v
  {
    if '"' !in v && '\\' !in v && '\n' !in v {
      EscapeIdle(v);
      SeenPlain(v);
    } else if Seen(v) == v {
      SeenCount(v);
      CountAbsent(v, '"');
      CountAbsent(v, '\\');
      CountAbsent(v, '\n');
      assert false;
    }
  }

  // ---------------------------------------------------------------- printed pairs are pieces

  lemma {:induction false} KeyMode(k: string)
    requires ',' !in k && '"' !in k && '\\' !in k
    ensures Solid(Plain, k) && After(Plain, k) == Plain
  {
    if k != [] {
      KeyMode(k[..|k| - 1]);
    }
  }

  lemma {:induction false} OneMode(m: Mode, c: char)
    ensures After(m, [c]) == Next(m, c)
    ensures Solid(m, [c]) <==> !(c == ',' && m == Plain)
  {
    assert [c][..0] == [];
  }

  lemma {:induction false} EscapeCharMode(c: char)
    ensures Solid(Quoted, EscapeChar(c)) && After(Quoted, EscapeChar(c)) == Quoted
  {
    var e := EscapeChar(c);
    OneMode(Quoted, e[0]);
    if |e| == 2 {
      OneMode(Escaped(true), e[1]);
      AfterConcat(Quoted, [e[0]], [e[1]]);
      assert [e[0]] + [e[1]] == e;
    }
  }

  lemma {:induction false} EscapeMode(v: string)
    ensures Solid(Quoted, Escape(v)) && After(Quoted, Escape(v)) == Quoted
  {
    if v != [] {
      EscapeMode(v[..|v| - 1]);
      EscapeCharMode(v[|v| - 1]);
      AfterConcat(Quoted, Escape(v[..|v| - 1]), EscapeChar(v[|v| - 1]));
    }
  }

  lemma {:induction false} QuotesMode(v: string)
    ensures Solid(Plain, InQuotes(Escape(v))) && After(Plain, InQuotes(Escape(v))) == Plain
  {
    EscapeMode(v);
    OneMode(Plain, '"');
    OneMode(Quoted, '"');
    AfterConcat(Plain, ['"'], Escape(v));
    AfterConcat(Plain, ['"'] + Escape(v), ['"']);
  }

  lemma {:induction false} PairMode(p: Pair)
    requires GoodKey(p.key)
    ensures Piece(PairText(p)) && After(Plain, PairText(p)) == Plain
  {
    KeyMode(p.key);
    OneMode(Plain, '=');
    QuotesMode(p.value);
    AfterConcat(Plain, p.key, ['=']);
    AfterConcat(Plain, p.key + ['='], InQuotes(Escape(p.value)));
  }

  lemma {:induction false} TextsClosed(ps: seq<Pair>)
    requires GoodPairs(ps)
    ensures Closed(Texts(ps)) && |Texts(ps)| == |ps|
  {
    if ps != [] {
      TextsClosed(ps[..|ps| - 1]);
      PairMode(ps[|ps| - 1]);
      assert Texts(ps)[..|ps| - 1] == Texts(ps[..|ps| - 1]);
    }
  }

  // ---------------------------------------------------------------- reading printed pairs

  lemma {:induction false} AbsentBefore(s: string, i: int, c: char)
    requires 0 <= i <= |s| && c !in s[..i]
    ensures forall k :: 0 <= k < i ==> s[k] != c
  {
    forall k | 0 <= k < i ensures s[k] != c {
      assert s[..i][k] == s[k];
    }
  }

  lemma {:induction false} IndexUnique(s: string, c: char, before: string, after: string)
    requires s == before + [c] + after && c !in before
    ensures IndexOf(s, c) == |before|
  {
    var i := IndexOf(s, c);
    assert s[..|before|] == before && s[|before|] == c;
    AbsentBefore(s, |before|, c);
    AbsentBefore(s, i, c);
  }

  lemma {:induction false} PairRead(p: Pair)
    requires GoodKey(p.key)
    ensures '=' in PairText(p) && KeyText(PairText(p)) == p.key && ValueText(PairText(p)) == Seen(p.value)
  {
    var t, q := PairText(p), InQuotes(Escape(p.value));
    IndexUnique(t, '=', p.key, q);
    assert t[|p.key|] == '=';
    assert t[..|p.key|] == p.key && t[|p.key| + 1..] == q;
    TrimIdle(q, IsSpace);
  }

  lemma {:induction false} TrimLeftPad(pad: string, s: string, drop: char -> bool)
    requires forall c :: c in pad ==> drop(c)
    ensures TrimLeft(pad + s, drop) == TrimLeft(s, drop)
  {
    if pad == [] {
      assert pad + s == s;
    } else {
      assert pad[0] in pad && (pad + s)[1..] == pad[1..] + s;
      TrimLeftPad(pad[1..], s, drop);
    }
  }

  lemma {:induction false} TrimRightPad(s: string, pad: string, drop: char -> bool)
    requires forall c :: c in pad ==> drop(c)
    ensures TrimRight(s + pad, drop) == TrimRight(s, drop)
  {
    if pad == [] {
      assert s + pad == s;
    } else {
      assert pad[|pad| - 1] in pad && (s + pad)[..|s + pad| - 1] == s + pad[..|pad| - 1];
      TrimRightPad(s, pad[..|pad| - 1], drop);
    }
  }

  /** Trimming takes away just the padding. */
  lemma {:induction false} TrimPadded(left: string, s: string, right: string, drop: char -> bool)
    requires forall c :: c in left + right ==> drop(c)
    requires s != [] && !drop(s[0]) && !drop(s[|s| - 1])
    ensures Trim(left + s + right, drop) == s
  {
    assert left + s + right == left + (s + right);
    assert forall c :: c in left || c in right ==> c in left + right;
    TrimLeftPad(left, s + right, drop);
    TrimLeftIdle(s + right, drop);
    TrimRightPad(s, right, drop);
  }

  /** White space around a key and around a quoted value is not part of them. */
  lemma {:induction false} PaddedPair(a: string, p: Pair, b: string, c: string, d: string)
    requires GoodKey(p.key) && p.key != [] && !IsSpace(p.key[0]) && !IsSpace(p.key[|p.key| - 1])
    requires Blank(a + b) && Blank(c + d)
    ensures var text := a + p.key + b + ['='] + (c + InQuotes(Escape(p.value)) + d);
            '=' in text && KeyText(text) == p.key && ValueText(text) == Seen(p.value)
  {
    var q := InQuotes(Escape(p.value));
    var key, value := a + p.key + b, c + q + d;
    var text := key + ['='] + value;
    assert '=' !in key by {
      assert forall x :: x in key ==> x in a + b || x in p.key;
      assert !IsSpace('=');
    }
    IndexUnique(text, '=', key, value);
    assert text[|key|] == '=';
    assert text[..|key|] == key && text[|key| + 1..] == value;
    TrimPadded(a, p.key, b, IsSpace);
    TrimPadded(c, q, d, IsSpace);
  }

  /** A piece without an equals sign is passed over. */
  lemma {:induction false} PieceWithoutEquals(x: Sample, before: seq<string>, piece: string, after: seq<string>)
    requires '=' !in piece
    ensures ReadPairs(x, before + [piece] + after) == ReadPairs(x, before + after)
  {
    if after == [] {
      assert before + [piece] + after == before + [piece] && before + after == before;
      assert (before + [piece])[..|before|] == before;
    } else {
      var front := after[..|after| - 1];
      PieceWithoutEquals(x, before, piece, front);
      var long, short := before + [piece] + after, before + after;
      assert long[..|long| - 1] == before + [piece] + front && short[..|short| - 1] == before + front;
    }
  }

  function SeenMap(ps: seq<Pair>): map<string, string> {
    if ps == [] then map[] else SeenMap(ps[..|ps| - 1])[ps[|ps| - 1].key := Seen(ps[|ps| - 1].value)]
  }

  lemma {:induction false} ReadLast(x: Sample, pairs: seq<string>, pair: string)
    requires '=' in pair
    ensures ReadPairs(x, pairs + [pair]).labels == ReadPairs(x, pairs).labels[KeyText(pair) := ValueText(pair)]
  {
    assert (pairs + [pair])[..|pairs|] == pairs;
  }

  lemma {:induction false} TextsRead(x: Sample, ps: seq<Pair>)
    requires GoodPairs(ps) && x.labels == map[]
    ensures ReadPairs(x, Texts(ps)).labels == SeenMap(ps)
  {
    if ps != [] {
      TextsRead(x, ps[..|ps| - 1]);
      PairRead(ps[|ps| - 1]);
      ReadLast(x, Texts(ps[..|ps| - 1]), PairText(ps[|ps| - 1]));
    }
  }

  lemma {:induction false} SeenMapIff(ps: seq<Pair>)
    requires GoodPairs(ps)
    ensures SeenMap(ps).Keys == MapOf(ps).Keys
    ensures SeenMap(ps) == MapOf(ps) <==> forall p :: p in ps ==> Seen(p.value) == p.value
  {
    if ps != [] {
      var front, p := ps[..|ps| - 1], ps[|ps| - 1];
      SeenMapIff(front);
      assert forall q :: q in ps <==> q in front || q == p;
      UpdateEqual(SeenMap(front), MapOf(front), p.key, Seen(p.value), p.value);
    }
  }

  lemma {:induction false} UpdateEqual(m: map<string, string>, n: map<string, string>, k: string, v: string, w: string)
    requires k !in m && k !in n
    ensures m[k := v] == n[k := w] <==> m == n && v == w
  {
    if m[k := v] == n[k := w] {
      assert m[k := v] - {k} == m && n[k := w] - {k} == n;
      assert m[k := v][k] == n[k := w][k];
    }
  }

  // ---------------------------------------------------------------- a closing brace ends the labels

  ghost predicate Lacks(l: Lexer, c: char) {
    c !in l.current && forall p :: p in l.pieces ==> c !in p
  }

  lemma {:induction false} LexLacks(s: string, c: char)
    requires c !in s
    ensures Lacks(Lex(START, s), c)
  {
    if s != [] {
      LexLacks(s[..|s| - 1], c);
    }
  }

  lemma {:induction false} ReadLacks(pairs: seq<string>, c: char)
    requires forall p :: p in pairs ==> c !in p
    ensures forall k :: k in ReadPairs(EMPTY, pairs).labels ==> c !in ReadPairs(EMPTY, pairs).labels[k]
  {
    if pairs != [] {
      ReadLacks(pairs[..|pairs| - 1], c);
      var pair := pairs[|pairs| - 1];
      assert c !in pair;
      if '=' in pair {
        var v := pair[IndexOf(pair, '=') + 1..];
        TrimChars(v, IsSpace, c);
        TrimChars(TrimSpace(v), IsQuote, c);
      }
    }
  }

  /** No label value the parser returns holds a closing brace. */
  lemma {:induction false} LabelsLackBrace(line: string)
    ensures HeadOf(line).Some? ==>
              forall k :: k in HeadOf(line).value.sample.labels ==> '}' !in HeadOf(line).value.sample.labels[k]
  {
    var open, close := IndexOf(line, '{'), IndexOf(line, '}');
    if 0 <= open < close {
      var text := line[open + 1..close];
      assert '}' !in text;
      LexLacks(text, '}');
      ReadLacks(Split(text), '}');
    }
  }

  lemma {:induction false} MapHolds(ps: seq<Pair>, p: Pair)
    requires GoodPairs(ps) && p in ps
    ensures p.key in MapOf(ps) && MapOf(ps)[p.key] == p.value
  {
    if p in ps[..|ps| - 1] {
      MapHolds(ps[..|ps| - 1], p);
    }
  }

  // ---------------------------------------------------------------- whole lines

  lemma {:induction false} EscapeNoBrace(v: string)
    requires '}' !in v
    ensures '}' !in Escape(v)
  {
    if v != [] {
      EscapeNoBrace(v[..|v| - 1]);
    }
  }

  lemma {:induction false} TextNoBrace(p: Pair)
    requires GoodKey(p.key) && '}' !in p.value
    ensures '}' !in PairText(p)
  {
    EscapeNoBrace(p.value);
  }

  lemma {:induction false} TextsNoBrace(ps: seq<Pair>)
    requires GoodPairs(ps) && forall p :: p in ps ==> '}' !in p.value
    ensures forall t :: t in Texts(ps) ==> '}' !in t
  {
    if ps != [] {
      TextsNoBrace(ps[..|ps| - 1]);
      TextNoBrace(ps[|ps| - 1]);
    }
  }

  lemma {:induction false} JoinLacks(ts: seq<string>, c: char)
    requires c != ',' && forall t :: t in ts ==> c !in t
    ensures c !in Ended(ts) && c !in Join(ts)
  {
    if ts != [] {
      JoinLacks(ts[..|ts| - 1], c);
      assert ts[|ts| - 1] in ts;
    }
  }

  lemma {:induction false} BracesAt(line: string, name: string, body: string, text: string)
    requires line == name + ['{'] + body + ['}'] + text && GoodName(name) && '}' !in body
    ensures IndexOf(line, '{') == |name| && IndexOf(line, '}') == |name| + 1 + |body|
    ensures line[..|name|] == name && line[|name| + 1..|name| + 1 + |body|] == body
    ensures line[|name| + 1 + |body| + 1..] == text
  {
    assert line == name + ['{'] + (body + ['}'] + text);
    IndexUnique(line, '{', name, body + ['}'] + text);
    IndexUnique(line, '}', name + ['{'] + body, text);
  }

  lemma {:induction false} BetweenBraces(line: string, name: string, body: string, text: string)
    requires line == name + ['{'] + body + ['}'] + text && GoodName(name) && '}' !in body
    ensures PartsOf(line) == Braced(name, body, text)
  {
    BracesAt(line, name, body, text);
  }

  lemma {:induction false} PrintedHead(line: string, name: string, body: string, text: string)
    requires PartsOf(line) == Braced(name, body, text)
    ensures HeadOf(line) == Some(Head(LabelsOf(body), name, TrimSpace(text)))
  {
  }

  lemma {:induction false} PrintedLabels(name: string, ps: seq<Pair>, text: string)
    requires GoodName(name) && GoodPairs(ps) && forall p :: p in ps ==> '}' !in p.value
    ensures HeadOf(Print(name, ps, text)).Some?
    ensures HeadOf(Print(name, ps, text)).value.sample.labels == SeenMap(ps)
    ensures HeadOf(Print(name, ps, text)).value.name == name
    ensures HeadOf(Print(name, ps, text)).value.text == TrimSpace(text)
  {
    TextsNoBrace(ps);
    JoinLacks(Texts(ps), '}');
    BetweenBraces(Print(name, ps, text), name, Join(Texts(ps)), text);
    PrintedHead(Print(name, ps, text), name, Join(Texts(ps)), text);
    TextsClosed(ps);
    ClosedPieces(Texts(ps));
    SplitJoined(Texts(ps));
    TextsRead(EMPTY, ps);
  }

  lemma {:induction false} FinishKeeps(h: Head, scan: Scanner)
    requires ParseFloat(h.text, scan).Some?
    ensures Finish(h, scan).Some? && Finish(h, scan).value.labels == h.sample.labels
    ensures Finish(h, scan).value.name == h.name && Finish(h, scan).value.value == ParseFloat(h.text, scan).value
  {
  }

  /** Parsing a printed line gives back its labels just when every value is simple: text the format would escape
      is not unescaped, and a closing brace inside a value ends the labels. */
  lemma {:induction false} LabelsRoundTrip(name: string, ps: seq<Pair>, text: string, scan: Scanner)
    requires GoodName(name) && GoodPairs(ps) && ParseFloat(text, scan).Some?
    ensures (Parse(Print(name, ps, text), scan).Some? && Parse(Print(name, ps, text), scan).value.labels == MapOf(ps))
            <==> forall p :: p in ps ==> Simple(p.value)
  {
    var line := Print(name, ps, text);
    if p :| p in ps && '}' in p.value {
      MapHolds(ps, p);
      LabelsLackBrace(line);
    } else {
      PrintedLabels(name, ps, text);
      TrimTwice(text, IsSpace);
      FinishKeeps(HeadOf(line).value, scan);
      SeenMapIff(ps);
      forall p | p in ps ensures Seen(p.value) == p.value <==> Simple(p.value) {
        SeenIff(p.value);
      }
    }
  }

  /** Name and value come back whenever no value holds a closing brace. */
  lemma {:induction false} NameAndValueRoundTrip(name: string, ps: seq<Pair>, text: string, scan: Scanner)
    requires GoodName(name) && GoodPairs(ps) && ParseFloat(text, scan).Some?
    requires forall p :: p in ps ==> '}' !in p.value
    ensures Parse(Print(name, ps, text), scan).Some?
    ensures Parse(Print(name, ps, text), scan).value.name == name
    ensures Parse(Print(name, ps, text), scan).value.value == ParseFloat(text, scan).value
  {
    PrintedLabels(name, ps, text);
    TrimTwice(text, IsSpace);
    FinishKeeps(HeadOf(Print(name, ps, text)).value, scan);
  }

  // ---------------------------------------------------------------- lines without labels

  predicate OneWord(w: string) {
    w != [] && forall c :: c in w ==> !IsSpace(c)
  }

  lemma {:induction false} FieldsConcat(f: Fields, a: string, b: string)
    ensures ReadFields(f, a + b) == ReadFields(ReadFields(f, a), b)
  {
    if b == [] {
      assert a + b == a;
    } else {
      assert (a + b)[..|a + b| - 1] == a + b[..|b| - 1];
      FieldsConcat(f, a, b[..|b| - 1]);
    }
  }

  lemma {:induction false} WordIsRead(f: Fields, w: string)
    requires forall c :: c in w ==> !IsSpace(c)
    ensures ReadFields(f, w) == Fields(f.done, f.current + w)
  {
    if w != [] {
      WordIsRead(f, w[..|w| - 1]);
      assert w[|w| - 1] in w;
      assert f.current + w[..|w| - 1] + [w[|w| - 1]] == f.current + w;
    } else {
      assert f.current + w == f.current;
    }
  }

  lemma {:induction false} BlankEndsWord(f: Fields, gap: string)
    requires Blank(gap) && gap != []
    ensures ReadFields(f, gap) == Fields(EndField(f), [])
  {
    var front := gap[..|gap| - 1];
    assert gap[|gap| - 1] in gap;
    if front != [] {
      BlankEndsWord(f, front);
    }
  }

  lemma {:induction false} WordsAreKept(f: Fields, s: string)
    ensures f.done <= ReadFields(f, s).done
  {
    if s != [] {
      WordsAreKept(f, s[..|s| - 1]);
    }
  }

  lemma {:induction false} WordThenTail(f: Fields, tail: string)
    requires f.current != [] && (tail == [] || IsSpace(tail[0]))
    ensures f.done + [f.current] <= EndField(ReadFields(f, tail))
  {
    if tail != [] {
      assert [tail[0]] + tail[1..] == tail;
      BlankEndsWord(f, [tail[0]]);
      FieldsConcat(f, [tail[0]], tail[1..]);
      WordsAreKept(Fields(EndField(f), []), tail[1..]);
    }
  }

  lemma {:induction false} ReadFour(f: Fields, a: string, b: string, c: string, d: string)
    ensures ReadFields(f, a + b + c + d) == ReadFields(ReadFields(ReadFields(ReadFields(f, a), b), c), d)
  {
    FieldsConcat(f, a + b + c, d);
    FieldsConcat(f, a + b, c);
    FieldsConcat(f, a, b);
  }

  lemma {:induction false} TwoFields(f: Fields, name: string, gap: string, text: string) returns (h: Fields)
    requires f.done == [] && f.current == [] && OneWord(name) && OneWord(text) && Blank(gap) && gap != []
    ensures h == ReadFields(ReadFields(ReadFields(f, name), gap), text) && h.done == [name] && h.current == text
  {
    WordIsRead(f, name);
    var g := ReadFields(f, name);
    assert g.done == [] && g.current == name;
    BlankEndsWord(g, gap);
    var n := ReadFields(g, gap);
    assert n.done == [name] && n.current == [];
    WordIsRead(n, text);
    h := ReadFields(n, text);
  }

  /** A name, white space and a value are the first two words, whatever stands behind them. */
  lemma {:induction false} FirstWords(f: Fields, name: string, gap: string, text: string, tail: string)
    requires f.done == [] && f.current == [] && OneWord(name) && OneWord(text) && Blank(gap) && gap != []
    requires tail == [] || IsSpace(tail[0])
    ensures [name, text] <= EndField(ReadFields(f, name + gap + text + tail))
  {
    ReadFour(f, name, gap, text, tail);
    var h := TwoFields(f, name, gap, text);
    WordThenTail(h, tail);
    assert h.done + [h.current] == [name, text];
  }

  lemma {:induction false} BareParts(line: string)
    requires '{' !in line
    ensures PartsOf(line) == Bare(Words(line))
  {
  }

  /** A line without braces is a name, a value and possibly more, such as a timestamp, which is passed over; it has no
      labels, and its name is its dimension. */
  lemma {:induction false} BareRoundTrip(name: string, gap: string, text: string, tail: string, scan: Scanner)
    requires OneWord(name) && OneWord(text) && Blank(gap) && gap != [] && (tail == [] || IsSpace(tail[0]))
    requires '{' !in name + gap + text + tail && ParseFloat(text, scan).Some?
    ensures Parse(name + gap + text + tail, scan)
         == Some(Sample(name, map[], [], [], name, [], [], ParseFloat(text, scan).value))
  {
    var line := name + gap + text + tail;
    FirstWords(Fields([], []), name, gap, text, tail);
    BareParts(line);
    BareHead(line, name, text, Words(line));
  }

  lemma {:induction false} BareHead(line: string, name: string, text: string, words: seq<string>)
    requires PartsOf(line) == Bare(words) && [name, text] <= words
    ensures HeadOf(line) == Some(Head(EMPTY, name, text))
  {
    assert words[0] == [name, text][0] && words[1] == [name, text][1];
  }

  /** Infinities and NaN as the format spells them are rejected, other text is for the number scanner to judge. */
  lemma {:induction false} SpecialValues(text: string, scan: Scanner)
    ensures ParseFloat(text, scan)
         == var t := TrimSpace(text);
            if t == "+Inf" || t == "Inf" || t == "-Inf" || t == "NaN" then None else scan(t)
  {
  }
}
