/**
 * The examples of test/utils_test.py, stated against the model of
 * `parse_code` in libs/utils.py (the test file calls a `parse_block` that
 * libs/utils.py does not define; the asserted token counts are those of
 * `parse_code` on the block's one line). Each example is an instance of a
 * lemma about every line of the same shape.
 */
module PackageTests {
  import opened Text
  import opened Codes
  import opened Tokenizer

  /** A name piece: unquoted, with no split symbol and no parenthesis. */
  predicate Name(s: string)
  {
    IsUnquoted(s) && forall c :: c in s ==> c != ',' && c != ';' && c != '(' && c != ')'
  }

  /** A quoted piece: it starts with `"` and holds no split symbol and no parenthesis. */
  predicate Quoted(q: string)
  {
    q != [] && q[0] == '"' && forall c :: c in q ==> c != ',' && c != ';' && c != '(' && c != ')'
  }

  /** A symbol the text does not hold leaves it whole: the text, stripped of `)`, goes on to the next symbol. */
  lemma {:induction false} PackageSkip(code: string, symbols: seq<char>)
    requires symbols != [] && symbols[0] !in code
    ensures PackageParse(code, symbols) == PackageParse(Strip(code, {')'}), symbols[1..])
  {
    var head := Strip(code, {')'});
    SplitNone(code, symbols[0]);
    assert [code][1..] == [];
    assert PackagePieces([code], symbols[1..]) == PackageParse(head, symbols[1..]) + PackagePieces([], symbols[1..]);
    assert PackageParse(head, symbols[1..]) + [] == PackageParse(head, symbols[1..]);
  }

  /** With no symbol left, every piece yields one token: the piece stripped of `)`. */
  lemma {:induction false} PackageLeaves(pieces: seq<string>)
    ensures |PackagePieces(pieces, [])| == |pieces|
    ensures forall i :: 0 <= i < |pieces| ==> PackagePieces(pieces, [])[i] == Strip(pieces[i], {')'})
    decreases |pieces|
  {
    if pieces != [] {
      var head := Strip(pieces[0], {')'});
      PackageLeaves(pieces[1..]);
      assert PackageParse(head, []) == [head];
      assert PackagePieces(pieces, []) == [head] + PackagePieces(pieces[1..], []);
    }
  }

  /** Pieces that are all quoted or empty filter down to nothing. */
  lemma {:induction false} FilterNoneUnquoted(rest: seq<string>)
    requires forall p :: p in rest ==> !IsUnquoted(p)
    ensures FilterUnquoted(rest) == []
    decreases |rest|
  {
    if rest != [] {
      assert rest[0] in rest;
      FilterNoneUnquoted(rest[1..]);
    }
  }

  /** Names followed only by quoted or empty pieces filter down to the names. */
  lemma {:induction false} FilterNames(names: seq<string>, rest: seq<string>)
    requires forall n :: n in names ==> IsUnquoted(n)
    requires forall p :: p in rest ==> !IsUnquoted(p)
    ensures FilterUnquoted(names + rest) == names
    decreases |names|
  {
    if names == [] {
      assert names + rest == rest;
      FilterNoneUnquoted(rest);
    } else {
      assert (names + rest)[0] == names[0];
      assert (names + rest)[1..] == names[1..] + rest;
      assert names[0] in names;
      FilterNames(names[1..], rest);
      assert [names[0]] + names[1..] == names;
    }
  }

  lemma Three<T>(r: seq<T>, a: T, b: T, c: T)
    requires |r| == 3 && r[0] == a && r[1] == b && r[2] == c
    ensures r == [a, b] + [c]
  {
  }

  lemma ThreeSplit<T>(a: T, b: T, c: T)
    ensures [a, b] + [c] == [a] + [b, c]
  {
  }

  lemma Two<T>(r: seq<T>, a: T, b: T)
    requires |r| == 2 && r[0] == a && r[1] == b
    ensures r == [a] + [b]
  {
  }

  /** A symbol list of the shape of `parse_code`'s: `,` and `;` first, then `(` last. */
  predicate PackageShape(symbols: seq<char>)
  {
    |symbols| == 3 && symbols[0] == ',' && symbols[1] == ';' && symbols[2] == '('
  }

  /** The symbols of `parse_code` have that shape. */
  lemma PackageSymbols(symbols: seq<char>)
    requires symbols == PackageSplitSymbols
    ensures PackageShape(symbols)
  {
  }

  /** `parse_code` is the filtered parse on its symbols. */
  lemma ParseCodeIs(line: string, symbols: seq<char>)
    requires symbols == PackageSplitSymbols
    ensures ParseCode(line) == FilterUnquoted(PackageParse(line, symbols))
  {
  }

  /** The call of a call `f(x())`, `)`-stripped, ends at the inner `(`. */
  lemma {:induction false} NestedStrip(f: string, x: string)
    requires Name(f) && Name(x)
    ensures Strip(f + ['('] + x + "())", {')'}) == f + ['('] + x + ['(']
    ensures Strip(f + ['('] + x + ['('], {')'}) == f + ['('] + x + ['(']
  {
    var w := f + ['('] + x + ['('];
    assert f[0] in f;
    assert w[0] == f[0] && w[|w| - 1] == '(';
    assert [] + w + "))" == f + ['('] + x + "())";
    StripBoth([], w, "))", {')'});
    StripKeeps(w, {')'});
  }

  /** `f(x(` splits on `(` into `f`, `x` and an empty piece. */
  lemma {:induction false} NestedSplit(f: string, x: string)
    requires '(' !in f && '(' !in x
    ensures Split(f + ['('] + x + ['('], '(') == [f, x, []]
  {
    assert f + ['('] + x + ['('] == f + ['('] + (x + ['('] + []);
    SplitAtFirst(f, x + ['('] + [], '(');
    SplitAtFirst(x, [], '(');
    SplitNone([], '(');
  }

  /** Neither `,` nor `;` occurs in `f(x())`. */
  lemma {:induction false} NestedChars(f: string, x: string)
    requires Name(f) && Name(x)
    ensures ',' !in f + ['('] + x + "())" && ';' !in f + ['('] + x + ['(']
    ensures '(' !in f && '(' !in x
  {
  }

  /** A symbol the text does not hold hands the `)`-stripped text `w` on to the next symbol. */
  lemma {:induction false} PackageSkipTo(code: string, w: string, symbols: seq<char>)
    requires symbols != [] && symbols[0] !in code && Strip(code, {')'}) == w
    ensures PackageParse(code, symbols) == PackageParse(w, symbols[1..])
  {
    PackageSkip(code, symbols);
  }

  /** A line holding neither of the first two symbols reaches the last one `)`-stripped, as `w`. */
  lemma {:induction false} PackageSkipTwo(line: string, w: string, symbols: seq<char>)
    requires |symbols| == 3 && symbols[0] !in line && symbols[1] !in w
    requires Strip(line, {')'}) == w && Strip(w, {')'}) == w
    ensures PackageParse(line, symbols) == PackageParse(w, symbols[2..])
  {
    PackageSkipTo(line, w, symbols);
    assert symbols[1..][0] == symbols[1];
    PackageSkipTo(w, w, symbols[1..]);
    assert symbols[1..][1..] == symbols[2..];
  }

  /** On the last symbol, `f(x(` yields `f`, `x` and an empty piece. */
  lemma {:induction false} NestedLeaves(f: string, x: string, symbols: seq<char>)
    requires |symbols| == 3 && symbols[2] == '(' && Name(f) && Name(x)
    ensures PackageParse(f + ['('] + x + ['('], symbols[2..]) == [f, x] + [[]]
  {
    var w := f + ['('] + x + ['('];
    assert symbols[2..][0] == '(' && symbols[2..][1..] == [];
    NestedChars(f, x);
    NestedSplit(f, x);
    assert f[0] in f && f[|f| - 1] in f && x[0] in x && x[|x| - 1] in x;
    StripKeeps(f, {')'});
    StripKeeps(x, {')'});
    PackageLeaves([f, x, []]);
    Three(PackageParse(w, symbols[2..]), f, x, []);
  }

  /**
   * `parse_code` of a call of a call, `f(x())`, is `[f, x]`: the line is not a
   * token of its own, and the empty piece after the inner `(` is dropped.
   */
  lemma {:induction false} NestedCallCodes(f: string, x: string, symbols: seq<char>)
    requires symbols == PackageSplitSymbols && Name(f) && Name(x)
    ensures ParseCode(f + ['('] + x + "())") == [f, x]
  {
    PackageSymbols(symbols);
    FilterNames([f, x], [[]]);
    NestedChars(f, x);
    NestedStrip(f, x);
    PackageSkipTwo(f + ['('] + x + "())", f + ['('] + x + ['('], symbols);
    NestedLeaves(f, x, symbols);
  }

  /**
   * A line holding no `,` whose `)`-stripped form `w` holds no `;` and splits
   * on `(` into names followed by quoted or empty pieces parses to the names.
   */
  lemma {:induction false} PackageCodes(line: string, w: string, symbols: seq<char>, names: seq<string>, rest: seq<string>)
    requires PackageShape(symbols) && ',' !in line && ';' !in w
    requires Strip(line, {')'}) == w && Strip(w, {')'}) == w
    requires PackageParse(w, symbols[2..]) == names + rest
    requires forall n :: n in names ==> IsUnquoted(n)
    requires forall p :: p in rest ==> !IsUnquoted(p)
    ensures FilterUnquoted(PackageParse(line, symbols)) == names
  {
    PackageSkipTwo(line, w, symbols);
    FilterNames(names, rest);
  }

  /** What a name piece is, character by character. */
  lemma {:induction false} NameFacts(f: string)
    requires Name(f)
    ensures IsUnquoted(f) && f[0] != ')' && ',' !in f && ';' !in f && '(' !in f
    ensures Strip(f, {')'}) == f
  {
    assert f[0] in f && f[|f| - 1] in f;
    StripKeeps(f, {')'});
  }

  /** What a quoted piece is, character by character. */
  lemma {:induction false} QuotedFacts(q: string)
    requires Quoted(q)
    ensures !IsUnquoted(q) && q[|q| - 1] != ')' && ',' !in q && ';' !in q && '(' !in q
    ensures Strip(q, {')'}) == q
  {
    assert q[0] in q && q[|q| - 1] in q;
    StripKeeps(q, {')'});
  }

  /**
   * A tail piece after a second `(`: non-empty, not ending in `)`, holding
   * no split symbol, and quoted or empty once stripped of `)`.
   */
  predicate Tail(e: string)
  {
    e != [] && e[|e| - 1] != ')' && (forall c :: c in e ==> c != ',' && c != ';' && c != '(')
    && !IsUnquoted(Strip(e, {')'}))
  }

  /** What a tail piece is, character by character. */
  lemma {:induction false} TailFacts(e: string)
    requires Tail(e)
    ensures e != [] && e[|e| - 1] != ')' && ',' !in e && ';' !in e && '(' !in e
    ensures !IsUnquoted(Strip(e, {')'}))
  {
  }

  /** A call on a literal `f(q)`, `)`-stripped, is `f(q`. */
  lemma {:induction false} LiteralStrip(f: string, q: string)
    requires f != [] && f[0] != ')' && q != [] && q[|q| - 1] != ')'
    ensures Strip(f + ['('] + q + [')'], {')'}) == f + ['('] + q
    ensures Strip(f + ['('] + q, {')'}) == f + ['('] + q
  {
    var w := f + ['('] + q;
    assert w[0] == f[0] && w[|w| - 1] == q[|q| - 1];
    assert [] + w + [')'] == f + ['('] + q + [')'];
    StripBoth([], w, [')'], {')'});
    StripKeeps(w, {')'});
  }

  /** `f(q` splits on `(` into `f` and the literal. */
  lemma {:induction false} LiteralSplit(f: string, q: string)
    requires '(' !in f && '(' !in q
    ensures Split(f + ['('] + q, '(') == [f, q]
  {
    SplitAtFirst(f, q, '(');
    SplitNone(q, '(');
  }

  /** On the last symbol, `f(q` yields `f` and the literal. */
  lemma {:induction false} LiteralLeaves(f: string, q: string, symbols: seq<char>)
    requires |symbols| == 3 && symbols[2] == '('
    requires '(' !in f && '(' !in q && Strip(f, {')'}) == f && Strip(q, {')'}) == q
    ensures PackageParse(f + ['('] + q, symbols[2..]) == [f] + [q]
  {
    var w := f + ['('] + q;
    assert symbols[2..][0] == '(' && symbols[2..][1..] == [];
    LiteralSplit(f, q);
    PackageLeaves([f, q]);
    Two(PackageParse(w, symbols[2..]), f, q);
  }

  /** On any symbol list of that shape, `f(q)` parses and filters to `[f]`. */
  lemma {:induction false} LiteralParses(f: string, q: string, symbols: seq<char>)
    requires PackageShape(symbols) && Name(f) && Quoted(q)
    ensures FilterUnquoted(PackageParse(f + ['('] + q + [')'], symbols)) == [f]
  {
    NameFacts(f);
    QuotedFacts(q);
    assert ',' !in f + ['('] + q + [')'] && ';' !in f + ['('] + q;
    assert forall n :: n in [f] ==> IsUnquoted(n);
    assert forall p :: p in [q] ==> !IsUnquoted(p);
    LiteralStrip(f, q);
    LiteralLeaves(f, q, symbols);
    PackageCodes(f + ['('] + q + [')'], f + ['('] + q, symbols, [f], [q]);
  }

  /** `parse_code` of a call on a literal, `f("aa")`, is `[f]`: the literal is dropped. */
  lemma {:induction false} LiteralCallCodes(f: string, q: string, symbols: seq<char>)
    requires symbols == PackageSplitSymbols && Name(f) && Quoted(q)
    ensures ParseCode(f + ['('] + q + [')']) == [f]
  {
    PackageSymbols(symbols);
    LiteralParses(f, q, symbols);
    ParseCodeIs(f + ['('] + q + [')'], symbols);
  }

  /** `f(q(e)`, `)`-stripped, is `f(q(e`. */
  lemma {:induction false} TailStrip(f: string, q: string, e: string)
    requires f != [] && f[0] != ')' && e != [] && e[|e| - 1] != ')'
    ensures Strip(f + ['('] + q + ['('] + e + [')'], {')'}) == f + ['('] + q + ['('] + e
    ensures Strip(f + ['('] + q + ['('] + e, {')'}) == f + ['('] + q + ['('] + e
  {
    var w := f + ['('] + q + ['('] + e;
    assert w[0] == f[0] && w[|w| - 1] == e[|e| - 1];
    assert [] + w + [')'] == f + ['('] + q + ['('] + e + [')'];
    StripBoth([], w, [')'], {')'});
    StripKeeps(w, {')'});
  }

  /** On the last symbol, `f(q(e` yields `f`, the literal and `e` stripped of `)`. */
  lemma {:induction false} TailLeaves(f: string, q: string, e: string, symbols: seq<char>)
    requires |symbols| == 3 && symbols[2] == '('
    requires '(' !in f && '(' !in q && '(' !in e && Strip(f, {')'}) == f && Strip(q, {')'}) == q
    ensures PackageParse(f + ['('] + q + ['('] + e, symbols[2..]) == [f] + [q, Strip(e, {')'})]
  {
    var w := f + ['('] + q + ['('] + e;
    var u := Strip(e, {')'});
    ThreeSplit(f, q, u);
    assert PackageParse(w, symbols[2..]) == PackagePieces([f, q, e], []) by {
      assert symbols[2..][0] == '(' && symbols[2..][1..] == [];
      SplitThree(f, q, e, '(');
    }
    assert PackagePieces([f, q, e], []) == [f, q] + [u] by {
      PackageLeaves([f, q, e]);
      Three(PackagePieces([f, q, e], []), f, q, u);
    }
  }

  /** On any symbol list of that shape, `f(q(e)` parses and filters to `[f]`. */
  lemma {:induction false} TailParses(f: string, q: string, e: string, symbols: seq<char>)
    requires PackageShape(symbols) && Name(f) && Quoted(q) && Tail(e)
    ensures FilterUnquoted(PackageParse(f + ['('] + q + ['('] + e + [')'], symbols)) == [f]
  {
    NameFacts(f);
    QuotedFacts(q);
    TailFacts(e);
    assert ',' !in f + ['('] + q + ['('] + e + [')'] && ';' !in f + ['('] + q + ['('] + e;
    assert forall n :: n in [f] ==> IsUnquoted(n);
    assert forall p :: p in [q, Strip(e, {')'})] ==> !IsUnquoted(p);
    TailStrip(f, q, e);
    TailLeaves(f, q, e, symbols);
    PackageCodes(f + ['('] + q + ['('] + e + [')'], f + ['('] + q + ['('] + e, symbols, [f], [q, Strip(e, {')'})]);
  }

  /** `parse_code` of `f(q(e)` is `[f]`: the literal and the quoted or empty tail are dropped. */
  lemma {:induction false} TailCallCodes(f: string, q: string, e: string, symbols: seq<char>)
    requires symbols == PackageSplitSymbols && Name(f) && Quoted(q) && Tail(e)
    ensures ParseCode(f + ['('] + q + ['('] + e + [')']) == [f]
  {
    PackageSymbols(symbols);
    TailParses(f, q, e, symbols);
    ParseCodeIs(f + ['('] + q + ['('] + e + [')'], symbols);
  }

  /** The tail `)"` of a string that looks like a call strips to a lone quote. */
  lemma {:induction false} QuoteTail()
    ensures Tail(")\"")
  {
    var e := ")\"";
    assert e[|e| - 1] != ')' && forall c :: c in e ==> c != ',' && c != ';' && c != '(';
    assert Strip(e, {')'}) == "\"" by {
      assert [')'] + "\"" + [] == e;
      StripBoth([')'], "\"", [], {')'});
    }
  }

  /** `f(q()")` is `f(q(e)` with the tail `)"`. */
  lemma {:induction false} QuotedCallLine(f: string, q: string)
    ensures f + ['('] + q + "()\")" == f + ['('] + q + ['('] + ")\"" + [')']
  {
  }

  /**
   * `parse_code` of a call on a string that looks like a call,
   * `f("x()")`, is `[f]`: the literal and the lone closing quote are dropped.
   */
  lemma {:induction false} QuotedCallCodes(f: string, q: string, symbols: seq<char>)
    requires symbols == PackageSplitSymbols && Name(f) && Quoted(q)
    ensures ParseCode(f + ['('] + q + "()\")") == [f]
  {
    QuotedCallLine(f, q);
    QuoteTail();
    TailCallCodes(f, q, ")\"", symbols);
  }
}
