/**
 * The tokenizer examples of test/block_test.py, stated against the model of
 * gonsole/block/block.py (the test file imports the older libs/block.py, which
 * has neither `parse_to_codes` nor `is_declared`; the asserted values are those
 * of gonsole/block/block.py). Each example is an instance of a lemma about
 * every line of the same shape, proved for any symbol list of that shape.
 */
module BlockTests {
  import opened Text
  import opened Codes
  import opened Tokenizer

  /** An identifier-like piece: real code with no symbol of `symbols`, no `)` and no whitespace in it. */
  predicate Plain(s: string, symbols: seq<char>)
  {
    IsRealCode(s) && forall c :: c in s ==> c !in symbols && c != ')' && c !in Whitespace
  }

  /** A symbol list whose fourth symbol is `(` and whose first three are no parenthesis. */
  predicate CallSymbols(symbols: seq<char>)
  {
    |symbols| >= 4 && symbols[3] == '(' && forall i :: 0 <= i < 3 ==> symbols[i] != '(' && symbols[i] != ')'
  }

  lemma PlainStrips(s: string, symbols: seq<char>)
    requires Plain(s, symbols) && |symbols| >= 4
    ensures Strip(s, PieceTrim) == s && StripSpace(s) == s
    ensures !MentionsSymbol(s, symbols[4..])
  {
    assert s[0] in s && s[|s| - 1] in s;
    StripKeeps(s, PieceTrim);
    StripKeeps(s, Whitespace);
    assert forall c :: c in symbols[4..] ==> c in symbols;
    NoSymbolMentioned(s, symbols[4..]);
  }

  lemma CloseParensStrip(symbols: seq<char>)
    ensures Strip("))", PieceTrim) == [] && StripSpace([]) == []
    ensures !MentionsSymbol([], symbols)
  {
    StripAll("))", PieceTrim);
    StripKeeps([], Whitespace);
  }

  /** The pieces of `f(x())` split on `(`. */
  lemma SplitNestedCall(f: string, x: string)
    requires '(' !in f && '(' !in x
    ensures Split(f + ['('] + x + "())", '(') == [f, x, "))"]
  {
    assert f + ['('] + x + "())" == f + ['('] + (x + ['('] + "))");
    SplitAtFirst(f, x + ['('] + "))", '(');
    SplitAtFirst(x, "))", '(');
    SplitNone("))", '(');
  }

  /** The pieces after the split: each plain piece is a token of its own, the closing parentheses an empty one. */
  lemma NestedCallPieces(f: string, x: string, symbols: seq<char>)
    requires |symbols| >= 4 && Plain(f, symbols) && Plain(x, symbols)
    ensures ParsePieces([f, x, "))"], symbols[4..]) == [f, x, ""]
  {
    PlainStrips(f, symbols);
    PlainStrips(x, symbols);
    CloseParensStrip(symbols[4..]);
    ParsePiecesPlain([f, x, "))"], symbols[4..]);
    TrimPiecesCons(f, [x, "))"]);
    TrimPiecesCons(x, ["))"]);
    TrimPiecesCons("))", []);
    assert [f] + [x, "))"] == [f, x, "))"];
    assert [x] + ["))"] == [x, "))"];
  }


  /** None of the first three symbols occurs in `f(x())`. */
  lemma NestedCallChars(f: string, x: string, symbols: seq<char>)
    requires CallSymbols(symbols) && Plain(f, symbols) && Plain(x, symbols)
    ensures forall i :: 0 <= i < 3 ==> symbols[i] !in f + ['('] + x + "())"
  {
    forall i | 0 <= i < 3 ensures symbols[i] !in f + ['('] + x + "())" {
      assert symbols[i] in symbols;
    }
  }

  /** From the `(` on, `f(x())` is emitted whole and then split on `(`. */
  lemma SplitAtParen(f: string, x: string, symbols: seq<char>)
    requires CallSymbols(symbols) && Plain(f, symbols) && Plain(x, symbols)
    ensures ParseWithSymbols(f + ['('] + x + "())", symbols[3..])
      == [f + ['('] + x + "())"] + ParsePieces([f, x, "))"], symbols[4..])
  {
    var line := f + ['('] + x + "())";
    var rest := symbols[3..];
    assert line[|f|] == '(';
    assert rest[0] == '(' && rest[1..] == symbols[4..];
    assert '(' in symbols;
    ParseAtSymbol(line, rest);
    SplitNestedCall(f, x);
  }

  /** A call of a call, `f(x())`: the parse yields the line, `f`, `x` and an empty piece. */
  lemma ParseNestedCall(f: string, x: string, symbols: seq<char>)
    requires CallSymbols(symbols) && Plain(f, symbols) && Plain(x, symbols)
    ensures ParseWithSymbols(f + ['('] + x + "())", symbols) == [f + ['('] + x + "())", f, x, ""]
  {
    var line := f + ['('] + x + "())";
    assert [line] + [f, x, ""] == [line, f, x, ""];
    assert ParseWithSymbols(line, symbols) == ParseWithSymbols(line, symbols[3..]) by {
      NestedCallChars(f, x, symbols);
      ParseSkipsAbsent(line, symbols, 3);
    }
    SplitAtParen(f, x, symbols);
    NestedCallPieces(f, x, symbols);
  }

  /** The split symbols of gonsole/block/block.py have that shape. */
  lemma SplitSymbolsCall(symbols: seq<char>)
    requires symbols == SplitSymbols
    ensures CallSymbols(symbols)
  {
  }

  /** The tokens of `f(x())` are the whole line, `f` and `x`, in that order. */
  lemma NestedCallTokens(f: string, x: string, symbols: seq<char>)
    requires symbols == SplitSymbols && Plain(f, symbols) && Plain(x, symbols)
    ensures Tokens([f + ['('] + x + "())"]) == [f + ['('] + x + "())", f, x]
  {
    var line := f + ['('] + x + "())";
    ParseLinesOne(line, symbols);
    SplitSymbolsCall(symbols);
    ParseNestedCall(f, x, symbols);
    assert line[0] == f[0];
    assert Tokens([line]) == FilterRealCodes([line, f, x] + [""]) by {
      assert [line, f, x, ""] == [line, f, x] + [""];
    }
    FilterRealCodesAppend([line, f, x], [""]);
    FilterRealCodesKeepsReal([line, f, x]);
    assert FilterRealCodes([""]) == [] by {
      assert !IsRealCode("");
      assert [""][1..] == [];
    }
    assert [line, f, x] + [] == [line, f, x];
  }

  /** A literal piece: it starts like a literal and holds no symbol, no `)` and no whitespace. */
  predicate Literal(q: string, symbols: seq<char>)
  {
    StartsLikeLiteral(q) && forall c :: c in q ==> c !in symbols && c != ')' && c !in Whitespace
  }

  /** A literal strips to itself, mentions no symbol, and is no real code. */
  lemma {:induction false} LiteralStrips(q: string, symbols: seq<char>)
    requires Literal(q, symbols) && |symbols| >= 4
    ensures Strip(q, PieceTrim) == q && StripSpace(q) == q && !IsRealCode(q)
    ensures !MentionsSymbol(q, symbols[4..])
  {
    assert q[0] in q && q[|q| - 1] in q;
    StripKeeps(q, PieceTrim);
    StripKeeps(q, Whitespace);
    assert forall c :: c in symbols[4..] ==> c in symbols;
    NoSymbolMentioned(q, symbols[4..]);
  }

  /** The first three split symbols occur in neither a plain nor a literal piece. */
  lemma {:induction false} CallChars(f: string, q: string, symbols: seq<char>)
    requires CallSymbols(symbols) && Plain(f, symbols) && Literal(q, symbols)
    ensures forall i :: 0 <= i < 3 ==> symbols[i] !in f && symbols[i] !in q
  {
    forall i | 0 <= i < 3 ensures symbols[i] !in f && symbols[i] !in q {
      assert symbols[i] in symbols;
    }
  }

  /** Only the line and the called name survive the filter when the other pieces are literals. */
  lemma {:induction false} FilterCallPieces(line: string, f: string, rest: seq<string>)
    requires IsRealCode(line) && IsRealCode(f) && forall t :: t in rest ==> !IsRealCode(t)
    ensures FilterRealCodes([line, f] + rest) == [line, f]
  {
    FilterRealCodesAppend([line, f], rest);
    FilterRealCodesKeepsReal([line, f]);
    FilterRealCodesDropsAll(rest);
    assert [line, f] + [] == [line, f];
  }

  /** The pieces of `f(q)` split on `(`. */
  lemma {:induction false} SplitCallLiteral(f: string, q: string)
    requires '(' !in f && '(' !in q
    ensures Split(f + ['('] + q + [')'], '(') == [f, q + [')']]
  {
    assert f + ['('] + q + [')'] == f + ['('] + (q + [')']);
    SplitAtFirst(f, q + [')'], '(');
    SplitNone(q + [')'], '(');
  }

  /** A literal followed by `)` strips to the literal. */
  lemma {:induction false} LiteralParenStrip(q: string, symbols: seq<char>)
    requires Literal(q, symbols)
    ensures Strip(q + [')'], PieceTrim) == q
  {
    assert q[|q| - 1] in q;
    StripBoth([], q, [')'], PieceTrim);
    assert [] + q + [')'] == q + [')'];
  }

  /** A last piece that trims to `u`, which no further symbol splits. */
  predicate TrimsTo(t: string, u: string, symbols: seq<char>)
  {
    Strip(t, PieceTrim) == u && StripSpace(u) == u && !MentionsSymbol(u, symbols)
  }

  /** The pieces of `f(t`: the name is a token, and `t` yields what it trims to. */
  lemma {:induction false} CallLiteralPieces(f: string, t: string, u: string, symbols: seq<char>)
    requires |symbols| >= 4 && Plain(f, symbols) && TrimsTo(t, u, symbols[4..])
    ensures ParsePieces([f, t], symbols[4..]) == [f, u]
  {
    PlainStrips(f, symbols);
    ParsePiecesPlain([f, t], symbols[4..]);
    TrimPiecesCons(f, [t]);
    TrimPiecesCons(t, []);
  }

  /** `f(q)` parses into the line, `f` and the literal. */
  lemma {:induction false} ParseCallLiteral(f: string, q: string, symbols: seq<char>)
    requires CallSymbols(symbols) && Plain(f, symbols) && Literal(q, symbols)
    ensures ParseWithSymbols(f + ['('] + q + [')'], symbols) == [f + ['('] + q + [')'], f, q]
  {
    var line := f + ['('] + q + [')'];
    CallChars(f, q, symbols);
    ParseSkipsAbsent(line, symbols, 3);
    assert line[|f|] == '(';
    assert symbols[3..][0] == '(' && symbols[3..][1..] == symbols[4..];
    assert '(' in symbols;
    ParseAtSymbol(line, symbols[3..]);
    SplitCallLiteral(f, q);
    LiteralStrips(q, symbols);
    LiteralParenStrip(q, symbols);
    CallLiteralPieces(f, q + [')'], q, symbols);
    assert [line] + [f, q] == [line, f, q];
  }

  /** A call on a literal, `f("aa")`: the tokens are the line and `f`; the literal is dropped. */
  lemma {:induction false} CallLiteralTokens(f: string, q: string, symbols: seq<char>)
    requires symbols == SplitSymbols && Plain(f, symbols) && Literal(q, symbols)
    ensures Tokens([f + ['('] + q + [')']]) == [f + ['('] + q + [')'], f]
  {
    var line := f + ['('] + q + [')'];
    ParseLinesOne(line, symbols);
    SplitSymbolsCall(symbols);
    ParseCallLiteral(f, q, symbols);
    LiteralStrips(q, symbols);
    assert line[0] == f[0];
    assert [line, f, q] == [line, f] + [q];
    FilterCallPieces(line, f, [q]);
  }

  /** The pieces of `f(q(t`: the name, the literal, and what `t` trims to. */
  lemma {:induction false} CallQuotedPieces(f: string, q: string, t: string, u: string, symbols: seq<char>)
    requires |symbols| >= 4 && Plain(f, symbols) && Literal(q, symbols) && TrimsTo(t, u, symbols[4..])
    ensures ParsePieces([f, q, t], symbols[4..]) == [f, q, u]
  {
    PlainStrips(f, symbols);
    LiteralStrips(q, symbols);
    ParsePiecesPlain([f, q, t], symbols[4..]);
    TrimPiecesCons(f, [q, t]);
    TrimPiecesCons(q, [t]);
    TrimPiecesCons(t, []);
  }

  /** From the first `(` on, `f(q(t` is emitted whole and then split on `(`. */
  lemma {:induction false} QuotedAtParen(f: string, q: string, t: string, symbols: seq<char>)
    requires CallSymbols(symbols) && '(' !in f && '(' !in q && '(' !in t
    ensures ParseWithSymbols(f + ['('] + q + ['('] + t, symbols[3..])
      == [f + ['('] + q + ['('] + t] + ParsePieces([f, q, t], symbols[4..])
  {
    var line := f + ['('] + q + ['('] + t;
    var rest := symbols[3..];
    assert line[|f|] == '(';
    assert rest[0] == '(' && rest[1..] == symbols[4..];
    ParseAtSymbol(line, rest);
    SplitThree(f, q, t, '(');
  }

  /** The first three symbols are absent from `f(q(t`, so parsing starts at `(`. */
  lemma {:induction false} QuotedSkip(f: string, q: string, t: string, symbols: seq<char>)
    requires CallSymbols(symbols) && Plain(f, symbols) && Literal(q, symbols)
    requires forall i :: 0 <= i < 4 ==> symbols[i] !in t
    ensures ParseWithSymbols(f + ['('] + q + ['('] + t, symbols) == ParseWithSymbols(f + ['('] + q + ['('] + t, symbols[3..])
  {
    var line := f + ['('] + q + ['('] + t;
    CallChars(f, q, symbols);
    forall i | 0 <= i < 3 ensures symbols[i] !in line {
    }
    ParseSkipsAbsent(line, symbols, 3);
  }

  /** Plain and literal pieces hold no `(` when `(` is a symbol. */
  lemma {:induction false} CallParenFree(f: string, q: string, t: string, symbols: seq<char>)
    requires CallSymbols(symbols) && Plain(f, symbols) && Literal(q, symbols)
    requires forall i :: 0 <= i < 4 ==> symbols[i] !in t
    ensures '(' !in f && '(' !in q && '(' !in t
  {
    assert symbols[3] == '(' && '(' in symbols;
  }

  lemma ConsThree<T>(a: T, b: T, c: T, d: T)
    ensures [a] + [b, c, d] == [a, b, c, d]
  {
  }

  /** `f(q(t` parses into the line, `f`, the literal and what `t` trims to. */
  lemma {:induction false} ParseCallQuoted(f: string, q: string, t: string, u: string, symbols: seq<char>)
    requires CallSymbols(symbols) && Plain(f, symbols) && Literal(q, symbols) && TrimsTo(t, u, symbols[4..])
    requires forall i :: 0 <= i < 4 ==> symbols[i] !in t
    ensures ParseWithSymbols(f + ['('] + q + ['('] + t, symbols) == [f + ['('] + q + ['('] + t, f, q, u]
  {
    ConsThree(f + ['('] + q + ['('] + t, f, q, u);
    CallParenFree(f, q, t, symbols);
    QuotedSkip(f, q, t, symbols);
    QuotedAtParen(f, q, t, symbols);
    CallQuotedPieces(f, q, t, u, symbols);
  }

  /** A line that starts with real code is real code. */
  lemma {:induction false} RealCodeLeads(f: string, rest: string)
    requires IsRealCode(f)
    ensures IsRealCode(f + rest)
  {
    assert (f + rest)[0] == f[0];
  }

  /** Of the four pieces of a quoted call, only the line and the name are real code. */
  lemma {:induction false} FilterQuotedPieces(line: string, f: string, q: string, u: string)
    requires IsRealCode(line) && IsRealCode(f) && !IsRealCode(q) && !IsRealCode(u)
    ensures FilterRealCodes([line, f, q, u]) == [line, f]
  {
    FilterCallPieces(line, f, [q, u]);
    assert [line, f] + [q, u] == [line, f, q, u];
  }

  /** Of the pieces of `f(q(t`, only the line and `f` are real code when `t` trims to no real code. */
  lemma {:induction false} CallQuotedFiltered(f: string, q: string, t: string, u: string, symbols: seq<char>)
    requires CallSymbols(symbols) && Plain(f, symbols) && Literal(q, symbols)
    requires TrimsTo(t, u, symbols[4..]) && !IsRealCode(u) && forall i :: 0 <= i < 4 ==> symbols[i] !in t
    ensures FilterRealCodes(ParseWithSymbols(f + ['('] + q + ['('] + t, symbols)) == [f + ['('] + q + ['('] + t, f]
  {
    var line := f + ['('] + q + ['('] + t;
    LiteralStrips(q, symbols);
    RealCodeLeads(f, ['(']);
    RealCodeLeads(f + ['('], q);
    RealCodeLeads(f + ['('] + q, ['(']);
    RealCodeLeads(f + ['('] + q + ['('], t);
    FilterQuotedPieces(line, f, q, u);
    ParseCallQuoted(f, q, t, u, symbols);
  }

  /**
   * A call whose argument is a literal followed by more text, `f(q(t`: the
   * tokens are the line and `f` when what `t` trims to is no real code.
   */
  lemma {:induction false} CallQuotedTokens(f: string, q: string, t: string, u: string, symbols: seq<char>)
    requires symbols == SplitSymbols && Plain(f, symbols) && Literal(q, symbols)
    requires TrimsTo(t, u, symbols[4..]) && !IsRealCode(u) && forall i :: 0 <= i < 4 ==> symbols[i] !in t
    ensures Tokens([f + ['('] + q + ['('] + t]) == [f + ['('] + q + ['('] + t, f]
  {
    SplitSymbolsCall(symbols);
    CallQuotedFiltered(f, q, t, u, symbols);
    TokensOne(f + ['('] + q + ['('] + t);
  }

  /** A tail `)w)` trims to `w` when `w` has no trimmed character at either end and no symbol. */
  lemma {:induction false} WrappedTail(w: string, symbols: seq<char>)
    requires w != [] && w[0] !in PieceTrim && w[|w| - 1] !in PieceTrim
    requires w[0] !in Whitespace && w[|w| - 1] !in Whitespace
    requires forall c :: c in w ==> c !in symbols
    ensures TrimsTo([')'] + w + [')'], w, symbols)
  {
    StripWrapped(')', w, PieceTrim);
    StripKeeps(w, Whitespace);
    NoSymbolMentioned(w, symbols);
  }

  /** The characters of the closing `)")`: none is among the first four symbols, and the quote is no symbol after them. */
  lemma {:induction false} QuoteChars(symbols: seq<char>)
    requires symbols == SplitSymbols
    ensures forall i :: 0 <= i < 4 ==> symbols[i] !in ")\")"
    ensures forall c :: c in "\"" ==> c !in symbols[4..]
    ensures "\""[0] !in PieceTrim && "\""[0] !in Whitespace && !IsRealCode("\"")
    ensures [')'] + "\"" + [')'] == ")\")"
  {
  }

  /** The closing `)")` of a quoted call trims to a lone quote, which is no real code. */
  lemma {:induction false} QuoteTail(symbols: seq<char>)
    requires symbols == SplitSymbols
    ensures TrimsTo(")\")", "\"", symbols[4..]) && !IsRealCode("\"")
    ensures forall i :: 0 <= i < 4 ==> symbols[i] !in ")\")"
  {
    QuoteChars(symbols);
    WrappedTail("\"", symbols[4..]);
  }

  /** `f("x()")` is `f(q(t` with the literal `"x` and the tail `)")`. */
  lemma {:induction false} QuotedCallLine(f: string, q: string)
    ensures f + ['('] + q + ['('] + ")\")" == f + ['('] + q + "()\")"
  {
  }

  /**
   * A call on a string literal that looks like a call, `f("x()")`: the tokens
   * are still the line and `f`; the literal and the lone closing quote are dropped.
   */
  lemma {:induction false} CallQuotedCallTokens(f: string, q: string, symbols: seq<char>)
    requires symbols == SplitSymbols && Plain(f, symbols) && Literal(q, symbols)
    ensures Tokens([f + ['('] + q + "()\")"]) == [f + ['('] + q + "()\")", f]
  {
    QuotedCallLine(f, q);
    QuoteTail(symbols);
    CallQuotedTokens(f, q, ")\")", "\"", symbols);
  }
}
