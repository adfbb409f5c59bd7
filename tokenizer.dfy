/**
 * The recursive splitters that cut a source line into the pieces the liveness
 * scan compares declared names against:
 * `Block._parse_code_with_symbols` (gonsole/block/block.py, and the same code in
 * gonsole/block.py with a shorter symbol list) and `parse_code` (libs/utils.py,
 * repeated verbatim in src/utils.py).
 */
module Tokenizer {
  import opened Text
  import opened Codes

  /** `SPLIT_SYMBOL` of gonsole/block/block.py. */
  const SplitSymbols: seq<char> := [' ', ',', ';', '(', '=', '+', '-', '*', '/']

  /** `SPLIT_SYMBOL` of gonsole/block.py: the same list without the space. */
  const LegacySplitSymbols: seq<char> := [',', ';', '(', '=', '+', '-', '*', '/']

  /** The characters `c.strip(') ')` removes from each piece. */
  const PieceTrim: set<char> := {')', ' '}

  /** Some symbol of `symbols` occurs in `code`. */
  predicate MentionsSymbol(code: string, symbols: seq<char>)
  {
    exists i :: 0 <= i < |symbols| && symbols[i] in code
  }

  /** A line none of whose characters is a symbol mentions none. */
  lemma NoSymbolMentioned(code: string, symbols: seq<char>)
    requires forall c :: c in code ==> c !in symbols
    ensures !MentionsSymbol(code, symbols)
  {
  }

  /**
   * `_parse_code_with_symbols`: when the first symbol occurs, the line itself
   * followed by the tokens of each piece (trimmed of `)` and spaces) under the
   * remaining symbols; otherwise the tokens under the remaining symbols; with
   * no symbol left, the line stripped of whitespace.
   */
  function ParseWithSymbols(code: string, symbols: seq<char>): (r: seq<string>)
    ensures r != []
    // `|code|` is listed so that a literal symbol list alone does not unroll the definition
    decreases |symbols|, 0, |code|
  {
    if |symbols| == 0 then [StripSpace(code)]
    else if symbols[0] !in code then ParseWithSymbols(code, symbols[1..])
    else [code] + ParsePieces(Split(code, symbols[0]), symbols[1..])
  }

  /** The tokens of each piece, concatenated in order. */
  function ParsePieces(pieces: seq<string>, symbols: seq<char>): (r: seq<string>)
    decreases |symbols|, |pieces|
  {
    if pieces == [] then []
    else ParseWithSymbols(Strip(pieces[0], PieceTrim), symbols) + ParsePieces(pieces[1..], symbols)
  }

  /**
   * The first token is the unsplit line whenever the line holds any symbol;
   * a line holding none yields exactly its whitespace-stripped self.
   */
  lemma {:induction false} ParseWithSymbolsHead(code: string, symbols: seq<char>)
    ensures MentionsSymbol(code, symbols) ==> ParseWithSymbols(code, symbols)[0] == code
    ensures !MentionsSymbol(code, symbols) ==> ParseWithSymbols(code, symbols) == [StripSpace(code)]
    decreases |symbols|
  {
    if |symbols| > 0 && symbols[0] !in code {
      ParseWithSymbolsHead(code, symbols[1..]);
      if MentionsSymbol(code, symbols) {
        var i :| 0 <= i < |symbols| && symbols[i] in code;
        assert symbols[1..][i - 1] in code;
      }
      if MentionsSymbol(code, symbols[1..]) {
        var i :| 0 <= i < |symbols[1..]| && symbols[1..][i] in code;
        assert symbols[i + 1] in code;
      }
    } else if |symbols| > 0 {
      assert symbols[0] in code;
    }
  }

  /** A line holding the first symbol is emitted whole, then its pieces are parsed. */
  lemma ParseAtSymbol(code: string, symbols: seq<char>)
    requires symbols != [] && symbols[0] in code
    ensures ParseWithSymbols(code, symbols) == [code] + ParsePieces(Split(code, symbols[0]), symbols[1..])
  {
  }

  /** Symbols that do not occur in the line are skipped. */
  lemma {:induction false} ParseSkipsAbsent(code: string, symbols: seq<char>, k: nat)
    requires k <= |symbols|
    requires forall i :: 0 <= i < k ==> symbols[i] !in code
    ensures ParseWithSymbols(code, symbols) == ParseWithSymbols(code, symbols[k..])
  {
    if k > 0 {
      assert symbols[0] !in code;
      ParseSkipsAbsent(code, symbols[1..], k - 1);
      assert symbols[1..][k - 1..] == symbols[k..];
    }
  }

  /** Each piece trimmed of `)` and spaces, then of whitespace. */
  function TrimPieces(pieces: seq<string>): (r: seq<string>)
    ensures |r| == |pieces|
  {
    if pieces == [] then [] else [StripSpace(Strip(pieces[0], PieceTrim))] + TrimPieces(pieces[1..])
  }

  /** Trimming works piece by piece. */
  lemma TrimPiecesCons(p: string, ps: seq<string>)
    ensures TrimPieces([p] + ps) == [StripSpace(Strip(p, PieceTrim))] + TrimPieces(ps)
  {
    assert ([p] + ps)[1..] == ps;
  }

  /** Pieces in which no remaining symbol occurs yield one token each: the piece trimmed and stripped. */
  lemma {:induction false} ParsePiecesPlain(pieces: seq<string>, symbols: seq<char>)
    requires forall p :: p in pieces ==> !MentionsSymbol(Strip(p, PieceTrim), symbols)
    ensures ParsePieces(pieces, symbols) == TrimPieces(pieces)
    decreases |pieces|
  {
    if pieces != [] {
      assert pieces[0] in pieces;
      ParseWithSymbolsHead(Strip(pieces[0], PieceTrim), symbols);
      assert forall p :: p in pieces[1..] ==> p in pieces;
      ParsePiecesPlain(pieces[1..], symbols);
    }
  }

  /** Tokens of every line of `lines`, concatenated in order. */
  function ParseLines(lines: seq<string>, symbols: seq<char>): (r: seq<string>)
    ensures |r| >= |lines|
  {
    if lines == [] then [] else ParseWithSymbols(lines[0], symbols) + ParseLines(lines[1..], symbols)
  }

  /** A single line parses on its own. */
  lemma ParseLinesOne(line: string, symbols: seq<char>)
    ensures ParseLines([line], symbols) == ParseWithSymbols(line, symbols)
  {
    assert ParseLines([line][1..], symbols) == [];
  }

  /** `parse_to_codes` of gonsole/block/block.py applied to the flattened lines of a block. */
  function Tokens(lines: seq<string>): (r: seq<string>)
    ensures forall t :: t in r ==> IsRealCode(t)
  {
    FilterRealCodes(ParseLines(lines, SplitSymbols))
  }

  /** The tokens of a single line. */
  lemma TokensOne(line: string)
    ensures Tokens([line]) == FilterRealCodes(ParseWithSymbols(line, SplitSymbols))
  {
    ParseLinesOne(line, SplitSymbols);
  }

  /** `parse_to_codes` of gonsole/block.py: the same, without splitting on spaces. */
  function LegacyTokens(lines: seq<string>): (r: seq<string>)
    ensures forall t :: t in r ==> IsRealCode(t)
  {
    FilterRealCodes(ParseLines(lines, LegacySplitSymbols))
  }

  /** The symbols `parse_code` of libs/utils.py splits on. */
  const PackageSplitSymbols: seq<char> := [',', ';', '(']

  /** No character of `t` is in `cs`. */
  predicate Avoids(t: string, cs: set<char>)
  {
    forall x :: x in t ==> x !in cs
  }

  /** `t` neither starts nor ends with a closing parenthesis. */
  predicate NoParenEnds(t: string)
  {
    t == [] || (t[0] != ')' && t[|t| - 1] != ')')
  }

  /**
   * The inner splitter of `parse_code` in libs/utils.py: split on the first
   * symbol, strip `)` from both ends of each piece, recurse on the rest; the
   * unsplit text is not emitted and the leaves are not whitespace-stripped.
   */
  function PackageParse(code: string, symbols: seq<char>): (r: seq<string>)
    decreases |symbols|, 0, |code|
  {
    if |symbols| == 0 then [code]
    else PackagePieces(Split(code, symbols[0]), symbols[1..])
  }

  /** The tokens of each piece (stripped of `)`), concatenated in order. */
  function PackagePieces(pieces: seq<string>, symbols: seq<char>): (r: seq<string>)
    decreases |symbols|, |pieces|
  {
    if pieces == [] then []
    else PackageParse(Strip(pieces[0], {')'}), symbols) + PackagePieces(pieces[1..], symbols)
  }

  /**
   * Every token avoids whatever the line avoided and every split symbol and,
   * once at least one symbol was split on, neither starts nor ends with `)`.
   */
  lemma {:induction false} PackageParseShape(code: string, symbols: seq<char>, banned: set<char>)
    requires Avoids(code, banned)
    ensures forall t :: t in PackageParse(code, symbols) ==> Avoids(t, banned + set c | c in symbols)
    ensures symbols != [] ==> forall t :: t in PackageParse(code, symbols) ==> NoParenEnds(t)
    decreases |symbols|, 0, 0
  {
    if |symbols| > 0 {
      var pieces := Split(code, symbols[0]);
      SplitChars(code, symbols[0]);
      forall p | p in pieces ensures Avoids(p, banned + {symbols[0]}) {
      }
      PackagePiecesShape(pieces, symbols[1..], banned + {symbols[0]});
      assert (banned + {symbols[0]}) + (set c | c in symbols[1..]) == banned + set c | c in symbols by {
        assert symbols == [symbols[0]] + symbols[1..];
      }
    }
  }

  lemma {:induction false} PackagePiecesShape(pieces: seq<string>, symbols: seq<char>, banned: set<char>)
    requires forall p :: p in pieces ==> Avoids(p, banned)
    ensures forall t :: t in PackagePieces(pieces, symbols) ==> Avoids(t, banned + set c | c in symbols) && NoParenEnds(t)
    decreases |symbols|, |pieces|
  {
    if pieces != [] {
      var head := Strip(pieces[0], {')'});
      assert pieces[0] in pieces;
      StripAvoids(pieces[0], {')'}, banned);
      PackageHeadShape(head, symbols, banned);
      PackagePiecesShape(pieces[1..], symbols, banned);
    }
  }

  /** The tokens of one `)`-stripped piece avoid the banned characters and the symbols, and have no `)` at either end. */
  lemma PackageHeadShape(head: string, symbols: seq<char>, banned: set<char>)
    requires Avoids(head, banned) && NoParenEnds(head)
    ensures forall t :: t in PackageParse(head, symbols) ==> Avoids(t, banned + set c | c in symbols) && NoParenEnds(t)
    decreases |symbols|, 0, 1
  {
    PackageParseShape(head, symbols, banned);
    if symbols == [] {
      assert PackageParse(head, symbols) == [head];
    }
  }

  /** Stripping keeps a text free of the banned characters, and leaves no stripped character at either end. */
  lemma StripAvoids(p: string, cs: set<char>, banned: set<char>)
    requires Avoids(p, banned)
    ensures Avoids(Strip(p, cs), banned)
    ensures ')' in cs ==> NoParenEnds(Strip(p, cs))
  {
  }

  /** `parse_code` of libs/utils.py and src/utils.py. */
  function ParseCode(code: string): (r: seq<string>)
    ensures forall t :: t in r ==> IsUnquoted(t) && NoParenEnds(t)
    ensures forall t :: t in r ==> ',' !in t && ';' !in t && '(' !in t
  {
    PackageParseShape(code, PackageSplitSymbols, {});
    assert PackageSplitSymbols[0] == ',' && PackageSplitSymbols[1] == ';' && PackageSplitSymbols[2] == '(';
    FilterUnquoted(PackageParse(code, PackageSplitSymbols))
  }
}
