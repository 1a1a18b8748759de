/** Splitting inverts joining, and parsing inverts printing for exactly the label values that need no escaping. */
module ExpositionLaws {
  import opened Exposition

  // ---------------------------------------------------------------- splitting and joining

  /** No comma in s stands outside quotes and escapes when reading starts in mode m. */
  predicate Solid(m: Mode, s: string) {
    s == [] || (Solid(m, s[..|s| - 1]) && !(s[|s| - 1] == ',' && After(m, s[..|s| - 1]) == Plain))
  }

  /** The text with its separating commas dropped. */
  function Unseparated(m: Mode, s: string): string {
    if s == [] then []
    else
      Unseparated(m, s[..|s| - 1])
      + if s[|s| - 1] == ',' && After(m, s[..|s| - 1]) == Plain then [] else [s[|s| - 1]]
  }

  function Flat(ps: seq<string>): string {
    if ps == [] then [] else Flat(ps[..|ps| - 1]) + ps[|ps| - 1]
  }

  /** Every piece with a comma after it. */
  function Ended(ps: seq<string>): string {
    if ps == [] then [] else Ended(ps[..|ps| - 1]) + ps[|ps| - 1] + [',']
  }

  function Join(ps: seq<string>): string {
    if ps == [] then [] else Ended(ps[..|ps| - 1]) + ps[|ps| - 1]
  }

  predicate Piece(p: string) {
    p != [] && Solid(Plain, p)
  }

  /** Pieces whose quotes are closed. */
  predicate Closed(ps: seq<string>) {
    ps == [] || (Closed(ps[..|ps| - 1]) && Piece(ps[|ps| - 1]) && After(Plain, ps[|ps| - 1]) == Plain)
  }

  /** What splitting can return: every piece but the last closes its quotes. */
  predicate Pieces(ps: seq<string>) {
    ps == [] || (Closed(ps[..|ps| - 1]) && Piece(ps[|ps| - 1]))
  }

  lemma {:induction false} LexConcat(l: Lexer, a: string, b: string)
    ensures Lex(l, a + b) == Lex(Lex(l, a), b)
  {
    if b == [] {
      assert a + b == a;
    } else {
      assert (a + b)[..|a + b| - 1] == a + b[..|b| - 1];
      LexConcat(l, a, b[..|b| - 1]);
    }
  }

  lemma {:induction false} AfterConcat(m: Mode, a: string, b: string)
    ensures After(m, a + b) == After(After(m, a), b)
    ensures Solid(m, a + b) <==> Solid(m, a) && Solid(After(m, a), b)
  {
    if b == [] {
      assert a + b == a;
    } else {
      assert (a + b)[..|a + b| - 1] == a + b[..|b| - 1];
      AfterConcat(m, a, b[..|b| - 1]);
    }
  }

  lemma {:induction false} LexSolid(l: Lexer, s: string)
    requires Solid(l.mode, s)
    ensures Lex(l, s) == Lexer(l.pieces, l.current + s, After(l.mode, s))
  {
    if s != [] {
      LexSolid(l, s[..|s| - 1]);
      assert l.current + s[..|s| - 1] + [s[|s| - 1]] == l.current + s;
    }
  }

  predicate Sound(l: Lexer) {
    Closed(l.pieces) && Solid(Plain, l.current) && After(Plain, l.current) == l.mode
  }

  lemma {:induction false} StepSound(l: Lexer, c: char)
    requires Sound(l)
    ensures Sound(Step(l, c))
  {
    if l.mode == Plain && c == ',' {
      assert l.current != [] ==> (l.pieces + [l.current])[..|l.pieces|] == l.pieces;
    } else {
      assert (l.current + [c])[..|l.current|] == l.current;
    }
  }

  lemma {:induction false} FlushFlat(l: Lexer)
    ensures Flat(Flush(l)) == Flat(l.pieces) + l.current
  {
    assert (l.pieces + [l.current])[..|l.pieces|] == l.pieces;
  }

  lemma {:induction false} StepFlat(l: Lexer, c: char)
    ensures Flat(Flush(Step(l, c))) == Flat(Flush(l)) + if c == ',' && l.mode == Plain then [] else [c]
  {
    var next := Step(l, c);
    if c == ',' && l.mode == Plain {
      assert Flush(next) == Flush(l);
      assert Flat(Flush(l)) + [] == Flat(Flush(l));
    } else {
      GrowFlat(l, next, c);
    }
  }

  lemma {:induction false} GrowFlat(l: Lexer, next: Lexer, c: char)
    requires next.pieces == l.pieces && next.current == l.current + [c]
    ensures Flat(Flush(next)) == Flat(Flush(l)) + [c]
  {
    FlushFlat(l);
    FlushFlat(next);
    assert Flat(l.pieces) + (l.current + [c]) == Flat(l.pieces) + l.current + [c];
  }

  lemma {:induction false} StepMode(l: Lexer, c: char)
    ensures Step(l, c).mode == Next(l.mode, c)
  {
  }

  lemma {:induction false} LexSound(s: string)
    ensures Sound(Lex(START, s))
  {
    if s != [] {
      LexSound(s[..|s| - 1]);
      StepSound(Lex(START, s[..|s| - 1]), s[|s| - 1]);
    }
  }

  lemma {:induction false} LexFlat(s: string)
    ensures Lex(START, s).mode == After(Plain, s)
    ensures Flat(Flush(Lex(START, s))) == Unseparated(Plain, s)
  {
    if s != [] {
      LexFlat(s[..|s| - 1]);
      StepFlat(Lex(START, s[..|s| - 1]), s[|s| - 1]);
      StepMode(Lex(START, s[..|s| - 1]), s[|s| - 1]);
    }
  }

  /** The pieces are whole label pairs, and hold every character except the commas outside quotes and escapes. */
  lemma {:induction false} SplitKeepsText(s: string)
    ensures Pieces(Split(s))
    ensures Flat(Split(s)) == Unseparated(Plain, s)
  {
    LexSound(s);
    LexFlat(s);
    var l := Lex(START, s);
    assert (l.pieces + [l.current])[..|l.pieces|] == l.pieces;
    if l.current == [] {
      ClosedPieces(l.pieces);
    }
  }

  lemma {:induction false} ClosedPieces(ps: seq<string>)
    requires Closed(ps)
    ensures Pieces(ps)
  {
  }

  lemma {:induction false} LexPiece(ps: seq<string>, p: string)
    requires Lex(START, Ended(ps)) == Lexer(ps, [], Plain) && Solid(Plain, p)
    ensures Lex(START, Ended(ps) + p) == Lexer(ps, p, After(Plain, p))
  {
    LexConcat(START, Ended(ps), p);
    LexSolid(Lexer(ps, [], Plain), p);
    assert [] + p == p;
  }

  lemma {:induction false} LexComma(l: Lexer)
    requires l.mode == Plain && l.current != []
    ensures Lex(l, [',']) == Lexer(l.pieces + [l.current], [], Plain)
  {
    assert [','][..0] == [];
  }

  lemma {:induction false} LexEnded(ps: seq<string>)
    requires Closed(ps)
    ensures Lex(START, Ended(ps)) == Lexer(ps, [], Plain)
  {
    if ps != [] {
      var front, p := ps[..|ps| - 1], ps[|ps| - 1];
      LexEnded(front);
      LexOneMore(front, p);
      assert front + [p] == ps;
    }
  }

  lemma {:induction false} LexOneMore(ps: seq<string>, p: string)
    requires Lex(START, Ended(ps)) == Lexer(ps, [], Plain) && Piece(p) && After(Plain, p) == Plain
    ensures Lex(START, Ended(ps) + p + [',']) == Lexer(ps + [p], [], Plain)
  {
    LexPiece(ps, p);
    LexConcat(START, Ended(ps) + p, [',']);
    LexComma(Lexer(ps, p, Plain));
  }

  lemma {:induction false} SplitJoined(ps: seq<string>)
    requires Pieces(ps)
    ensures Split(Join(ps)) == ps
  {
    if ps != [] {
      LexEnded(ps[..|ps| - 1]);
      LexPiece(ps[..|ps| - 1], ps[|ps| - 1]);
      assert ps[..|ps| - 1] + [ps[|ps| - 1]] == ps;
    }
  }

  /** Splitting gives back a list joined with commas just when it is a list of pieces. */
  lemma {:induction false} SplitJoin(ps: seq<string>)
    ensures Split(Join(ps)) == ps <==> Pieces(ps)
  {
    SplitKeepsText(Join(ps));
    if Pieces(ps) {
      SplitJoined(ps);
    }
  }

  /** Splitting what was split and joined again changes nothing. */
  lemma {:induction false} Resplit(s: string)
    ensures Split(Join(Split(s))) == Split(s)
  {
    SplitKeepsText(s);
    SplitJoin(Split(s));
  }

  // ---------------------------------------------------------------- fields of a parsed line

  function Get(m: map<string, string>, key: string): string {
    if key in m then m[key] else []
  }

  predicate FieldsMatch(x: Sample) {
    x.chart == Get(x.labels, "chart") && x.family == Get(x.labels, "family")
    && x.dimension == Get(x.labels, "dimension") && x.instance == Get(x.labels, "instance")
    && x.unit == Get(x.labels, "units")
  }

  lemma {:induction false} StoreMatches(x: Sample, key: string, val: string)
    requires FieldsMatch(x)
    ensures FieldsMatch(Store(x, key, val))
  {
  }

  lemma {:induction false} PairsMatch(pairs: seq<string>)
    ensures FieldsMatch(ReadPairs(EMPTY, pairs))
    ensures ReadPairs(EMPTY, pairs).name == EMPTY.name && ReadPairs(EMPTY, pairs).value == EMPTY.value
  {
    if pairs != [] {
      PairsMatch(pairs[..|pairs| - 1]);
      var y, pair := ReadPairs(EMPTY, pairs[..|pairs| - 1]), pairs[|pairs| - 1];
      if '=' in pair {
        StoreMatches(y, KeyText(pair), ValueText(pair));
      }
    }
  }

  /** On every line the five fields are those labels, duplicates included, and a missing or empty dimension is
      the metric's name. */
  lemma {:induction false} FieldsAreLabels(line: string, scan: Scanner)
    requires Parse(line, scan).Some?
    ensures
      var x := Parse(line, scan).value;
      x.chart == Get(x.labels, "chart") && x.family == Get(x.labels, "family")
      && x.instance == Get(x.labels, "instance") && x.unit == Get(x.labels, "units")
      && x.dimension == if Get(x.labels, "dimension") == [] then x.name else Get(x.labels, "dimension")
  {
    var open, close := IndexOf(line, '{'), IndexOf(line, '}');
    if 0 <= open < close {
      PairsMatch(Split(line[open + 1..close]));
    }
  }
}
