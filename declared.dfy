/**
 * Declaration detection of gonsole/block/declared.py: which declaration form a
 * `;`-separated clause uses (`:=`, `var`, `const`, `type`) and which names it
 * declares. The regular expressions are written out as ASCII predicates.
 */
module Declared {
  import opened Wrappers
  import opened Text
  import opened Codes

  /** The value `get_declared_symbol` returns: `":="`, `"var"`, `"const"` or `"type"`. */
  datatype Symbol = Walrus | VarKeyword | ConstKeyword | TypeKeyword

  /**
   * `get_declared_symbol`: `:=` anywhere in the clause wins; otherwise the
   * keyword the clause starts with, when a space follows it (`DECLARE_KEYWORD`).
   */
  function DeclaredSymbol(code: string): (r: Option<Symbol>)
    ensures r == Some(Walrus) <==> HasInfix(code, ":=")
    ensures r == Some(VarKeyword) <==> !HasInfix(code, ":=") && "var " <= code
    ensures r == Some(ConstKeyword) <==> !HasInfix(code, ":=") && "const " <= code
    ensures r == Some(TypeKeyword) <==> !HasInfix(code, ":=") && "type " <= code
    ensures r == None <==> !HasInfix(code, ":=") && !("var " <= code) && !("const " <= code) && !("type " <= code)
  {
    if HasInfix(code, ":=") then Some(Walrus)
    else if "const " <= code then Some(ConstKeyword)
    else if "var " <= code then Some(VarKeyword)
    else if "type " <= code then Some(TypeKeyword)
    else None
  }

  /** The longest prefix made of `[_\w]` characters: what a greedy `[_\w]+` takes. */
  function WordRun(s: string): (r: string)
    ensures r <= s
    ensures forall c :: c in r ==> IsWordChar(c)
    ensures |r| < |s| ==> !IsWordChar(s[|r|])
  {
    if s != [] && IsWordChar(s[0]) then [s[0]] + WordRun(s[1..]) else []
  }

  /** The longest word prefix of a word followed by a non-word character (or nothing) is the word. */
  lemma {:induction false} WordRunOfWord(w: string, rest: string)
    requires IsWord(w) && (rest == [] || !IsWordChar(rest[0]))
    ensures WordRun(w + rest) == w
  {
    if |w| > 1 {
      assert (w + rest)[1..] == w[1..] + rest;
      WordRunOfWord(w[1..], rest);
      assert [w[0]] + w[1..] == w;
    } else {
      assert (w + rest)[1..] == rest;
      assert [w[0]] == w;
    }
  }

  /** The longest word prefix of text that starts with a word followed by a non-word character (or nothing) is that word. */
  lemma {:induction false} WordRunPrefix(w: string, s: string)
    requires IsWord(w) && w <= s && (|s| == |w| || !IsWordChar(s[|w|]))
    ensures WordRun(s) == w
  {
    if |w| > 1 {
      WordRunPrefix(w[1..], s[1..]);
    }
  }

  /** The number of spaces `s` starts with: what a greedy ` *` takes. */
  function SpaceCount(s: string): (n: nat)
    ensures n <= |s|
    ensures forall i :: 0 <= i < n ==> s[i] == ' '
    ensures n < |s| ==> s[n] != ' '
  {
    if s != [] && s[0] == ' ' then 1 + SpaceCount(s[1..]) else 0
  }

  /** The length of the comma, spaces and word an item of `(, *[_\w]+)*` takes at the start of `s`, or 0 when none matches. */
  function ItemLength(s: string): (n: nat)
    ensures n <= |s|
  {
    if s != [] && s[0] == ',' then
      var k := 1 + SpaceCount(s[1..]);
      var w := WordRun(s[k..]);
      if w == [] then 0 else k + |w|
    else 0
  }

  /** The length of the text the greedy `(, *[_\w]+)*` of `VARIABLE_DECLARE_RE` matches at the start of `s`. */
  function ContinuationLength(s: string): (n: nat)
    ensures n <= |s|
    decreases |s|
  {
    var n := ItemLength(s);
    if n == 0 then 0 else n + ContinuationLength(s[n..])
  }

  /** The names the matched continuation lists, read directly off the text: an independent reference for `SplitNames`. */
  function ContinuationWords(s: string): (r: seq<string>)
    decreases |s|
  {
    var n := ItemLength(s);
    if n == 0 then [] else [WordRun(s[1 + SpaceCount(s[1..])..])] + ContinuationWords(s[n..])
  }

  /** `[v.strip() for v in pieces if v]`. */
  function StripNonEmpty(pieces: seq<string>): (r: seq<string>)
    ensures |r| <= |pieces|
    ensures forall n :: n in r ==> Unpadded(n)
  {
    if pieces == [] then []
    else (if pieces[0] != [] then [StripSpace(pieces[0])] else []) + StripNonEmpty(pieces[1..])
  }

  /** The list comprehension distributes over concatenation of the pieces. */
  lemma {:induction false} StripNonEmptyAppend(xs: seq<string>, ys: seq<string>)
    ensures StripNonEmpty(xs + ys) == StripNonEmpty(xs) + StripNonEmpty(ys)
  {
    if xs == [] {
      assert xs + ys == ys;
    } else {
      assert (xs + ys)[0] == xs[0] && (xs + ys)[1..] == xs[1..] + ys;
      StripNonEmptyAppend(xs[1..], ys);
    }
  }

  /** One piece: dropped when empty, stripped otherwise. With `StripNonEmptyAppend` this fixes the result for every list. */
  lemma StripNonEmptyOne(p: string)
    ensures StripNonEmpty([p]) == if p == [] then [] else [StripSpace(p)]
  {
    assert [p][1..] == [];
  }

  /** With no empty piece, the result holds the stripped pieces one for one, in order. */
  lemma {:induction false} StripNonEmptyAll(pieces: seq<string>)
    requires forall i :: 0 <= i < |pieces| ==> pieces[i] != []
    ensures |StripNonEmpty(pieces)| == |pieces|
    ensures forall i :: 0 <= i < |pieces| ==> StripNonEmpty(pieces)[i] == StripSpace(pieces[i])
  {
    if pieces != [] {
      StripNonEmptyAll(pieces[1..]);
      StripNonEmptyCons(pieces[0], pieces[1..]);
      assert [pieces[0]] + pieces[1..] == pieces;
    }
  }

  /** `[v.strip() for v in text.split(",") if v]`: the comma-separated names of a declaration, whitespace removed. */
  function SplitNames(text: string): (r: seq<string>)
    ensures forall n :: n in r ==> ',' !in n
    ensures forall n :: n in r ==> Unpadded(n)
    ensures |r| <= |Split(text, ',')|
  {
    var pieces := Split(text, ',');
    var r := StripNonEmpty(pieces);
    assert forall n :: n in r ==> ',' !in n by {
      StripNonEmptyKeepsOut(pieces, ',');
    }
    r
  }

  lemma {:induction false} StripNonEmptyKeepsOut(pieces: seq<string>, c: char)
    requires forall p :: p in pieces ==> c !in p
    ensures forall n :: n in StripNonEmpty(pieces) ==> c !in n
  {
    if pieces != [] {
      assert pieces[0] in pieces;
      StripNonEmptyKeepsOut(pieces[1..], c);
    }
  }

  /** The text after `var ` or `const `, when the clause starts with one of them. */
  function AfterKeyword(code: string): Option<string>
  {
    if "var " <= code then Some(code[4..])
    else if "const " <= code then Some(code[6..])
    else None
  }

  /**
   * The `varis` group of `VARIABLE_DECLARE_RE` matched at the start of the
   * clause: a word, then the greedy comma continuation. The rest of the
   * pattern can always match the empty text, so the match fails exactly when
   * no word character follows the keyword and its space.
   */
  function VarisGroup(code: string): (r: Option<string>)
    ensures r.Some? <==> AfterKeyword(code).Some? && WordRun(AfterKeyword(code).value) != []
  {
    match AfterKeyword(code)
    case None => None
    case Some(after) =>
      var w := WordRun(after);
      if w == [] then None
      else Some(after[..|w| + ContinuationLength(after[|w|..])])
  }

  /**
   * `get_vari_by_keyword_var_or_const`: the names of a `var`/`const` clause,
   * or `AttributeError` from `None.group` when the pattern does not match
   * (`var (`, `var  x` with two spaces).
   */
  function VarConstNames(code: string): (r: Result<seq<string>>)
    ensures r.Err? <==> VarisGroup(code).None?
    ensures r.Err? ==> r.error == AttributeError
  {
    match VarisGroup(code)
    case None => Err(AttributeError)
    case Some(group) => Ok(SplitNames(group))
  }

  /**
   * The names of a matching `var`/`const` clause are the first word after the
   * keyword and then each word of the comma continuation, in order; so there is
   * at least one.
   */
  lemma VarConstNamesWords(code: string)
    requires VarisGroup(code).Some?
    ensures var after := AfterKeyword(code).value; var w := WordRun(after);
      VarConstNames(code) == Ok([w] + ContinuationWords(after[|w|..]))
  {
    var after := AfterKeyword(code).value;
    var w := WordRun(after);
    GroupPieces(code, after, w);
    StripWords(w, after[|w|..]);
  }

  /** The comma pieces of the `varis` group: the first word, then one padded word per continuation item. */
  lemma GroupPieces(code: string, after: string, w: string)
    requires VarisGroup(code).Some? && after == AfterKeyword(code).value && w == WordRun(after)
    ensures Split(VarisGroup(code).value, ',') == [w] + ContinuationPieces(after[|w|..])
  {
    var rest := after[|w|..];
    var n := ContinuationLength(rest);
    assert VarisGroup(code).value == after[..|w| + n];
    assert after[..|w| + n] == w + rest[..n] by {
      assert w == after[..|w|];
    }
    assert !IsWordChar(',');
    ContinuationSplit(w, rest);
  }

  /** One item of a non-empty continuation: a comma, spaces, a word, and the rest of the continuation. */
  lemma ContinuationStep(s: string) returns (pad: string, w: string, rest: string)
    requires ContinuationLength(s) > 0
    ensures s[..ContinuationLength(s)] == [','] + (pad + w) + rest[..ContinuationLength(rest)]
    ensures forall c :: c in pad ==> c == ' '
    ensures w != [] && forall c :: c in w ==> IsWordChar(c)
    ensures ContinuationPieces(s) == [pad + w] + ContinuationPieces(rest)
    ensures ContinuationWords(s) == [w] + ContinuationWords(rest)
    ensures |rest| < |s|
  {
    pad, w, rest := ItemParts(s);
    WordsUnfold(s);
  }

  /** The parts of the first item of a non-empty continuation. */
  lemma ItemParts(s: string) returns (pad: string, w: string, rest: string)
    requires ContinuationLength(s) > 0
    ensures ItemLength(s) != 0
    ensures s[..ContinuationLength(s)] == [','] + (pad + w) + rest[..ContinuationLength(rest)]
    ensures forall c :: c in pad ==> c == ' '
    ensures w != [] && forall c :: c in w ==> IsWordChar(c)
    ensures w == WordRun(s[1 + SpaceCount(s[1..])..]) && pad + w == s[1..ItemLength(s)] && rest == s[ItemLength(s)..]
    ensures |rest| < |s|
  {
    var n := ItemLength(s);
    var k := 1 + SpaceCount(s[1..]);
    w := WordRun(s[k..]);
    pad := s[1..k];
    rest := s[n..];
    assert n == k + |w| && w == s[k..][..|w|];
    assert s[1..n] == pad + w by {
      assert s[1..n] == s[1..k] + s[k..n];
    }
    assert forall c :: c in pad ==> c == ' ' by {
      assert forall i :: 0 <= i < |pad| ==> pad[i] == s[1..][i];
    }
    assert s[..ContinuationLength(s)] == [','] + (pad + w) + rest[..ContinuationLength(rest)] by {
      ItemPrefix(s);
      assert s[..n] == [','] + (pad + w) by {
        assert s[..n] == [s[0]] + s[1..n];
      }
    }
  }

  /** A continuation is its first item followed by the continuation after it. */
  lemma ItemPrefix(s: string)
    requires ContinuationLength(s) > 0
    ensures ItemLength(s) != 0
    ensures s[..ContinuationLength(s)] == s[..ItemLength(s)] + s[ItemLength(s)..][..ContinuationLength(s[ItemLength(s)..])]
  {
    var n := ItemLength(s);
    var m := ContinuationLength(s[n..]);
    assert ContinuationLength(s) == n + m;
    PrefixSplit(s, n, m);
  }

  lemma PrefixSplit(s: string, n: nat, m: nat)
    requires n + m <= |s|
    ensures s[..n + m] == s[..n] + s[n..][..m]
  {
  }

  lemma WordsUnfold(s: string)
    requires ItemLength(s) != 0
    ensures ContinuationWords(s) == [WordRun(s[1 + SpaceCount(s[1..])..])] + ContinuationWords(s[ItemLength(s)..])
    ensures ContinuationPieces(s) == [s[1..ItemLength(s)]] + ContinuationPieces(s[ItemLength(s)..])
  {
  }

  /** Splitting a word followed by the matched continuation on commas gives the word and one padded word per item. */
  lemma {:induction false} ContinuationSplit(p: string, s: string)
    requires ',' !in p
    ensures Split(p + s[..ContinuationLength(s)], ',') == [p] + ContinuationPieces(s)
    decreases |s|
  {
    var n := ContinuationLength(s);
    if n == 0 {
      assert p + s[..n] == p;
      SplitNone(p, ',');
      assert ContinuationPieces(s) == [];
    } else {
      var pad, w, rest := ContinuationStep(s);
      var q := pad + w;
      var m := ContinuationLength(rest);
      NoCommaInPaddedWord(pad, w);
      Regroup(p, [','], q, rest[..m]);
      assert p + s[..n] == p + [','] + (q + rest[..m]);
      SplitAtFirst(p, q + rest[..m], ',');
      ContinuationSplit(q, rest);
    }
  }

  /** The pieces between the commas of the matched continuation: spaces, then a word. */
  function ContinuationPieces(s: string): (r: seq<string>)
    decreases |s|
  {
    var n := ItemLength(s);
    if n == 0 then [] else [s[1..n]] + ContinuationPieces(s[n..])
  }

  lemma StripNonEmptyCons(p: string, ps: seq<string>)
    requires p != []
    ensures StripNonEmpty([p] + ps) == [StripSpace(p)] + StripNonEmpty(ps)
  {
    assert ([p] + ps)[1..] == ps;
  }

  /** Stripping the pieces of a continuation leaves exactly its words. */
  lemma {:induction false} StripPieces(s: string)
    ensures StripNonEmpty(ContinuationPieces(s)) == ContinuationWords(s)
    decreases |s|
  {
    if ContinuationLength(s) > 0 {
      var pad, v, rest := ContinuationStep(s);
      assert forall c :: c in pad ==> c in Whitespace;
      assert v[0] in v && v[|v| - 1] in v;
      StripPadded(pad, v, Whitespace);
      StripNonEmptyCons(pad + v, ContinuationPieces(rest));
      StripPieces(rest);
    } else {
      assert ContinuationPieces(s) == [] && ContinuationWords(s) == [];
    }
  }

  /** Stripping the pieces of a word and its continuation leaves exactly the words. */
  lemma StripWords(w: string, s: string)
    requires w != [] && forall c :: c in w ==> IsWordChar(c)
    ensures StripNonEmpty([w] + ContinuationPieces(s)) == [w] + ContinuationWords(s)
  {
    assert w[0] in w && w[|w| - 1] in w;
    StripKeeps(w, Whitespace);
    StripNonEmptyCons(w, ContinuationPieces(s));
    StripPieces(s);
  }

  lemma NoCommaInPaddedWord(pad: string, w: string)
    requires forall c :: c in pad ==> c == ' '
    requires forall c :: c in w ==> IsWordChar(c)
    ensures ',' !in pad + w
  {
  }

  lemma Regroup(a: string, b: string, c: string, d: string)
    ensures (a + b) + (c + d) == a + (b + c) + d
    ensures a + (b + c + d) == a + b + (c + d)
  {
  }

  /** `TYPE_DEFINE_RE.match(code).group("var")`: the word after `type `, or `AttributeError` when there is none. */
  function TypeName(code: string): (r: Result<seq<string>>)
    ensures r.Ok? <==> "type " <= code && WordRun(code[5..]) != []
    ensures r.Ok? ==> r.value == [WordRun(code[5..])]
    ensures r.Err? ==> r.error == AttributeError
  {
    if "type " <= code && WordRun(code[5..]) != [] then Ok([WordRun(code[5..])]) else Err(AttributeError)
  }

  /**
   * `_get_declared_varis`: the names one clause declares, dispatched on its
   * declaration symbol; a clause that declares nothing yields no names
   * (`None`, which the caller treats like an empty list).
   */
  function ClauseNames(code: string): (r: Result<seq<string>>)
    ensures DeclaredSymbol(code) == None ==> r == Ok([])
    ensures DeclaredSymbol(code) == Some(Walrus) ==> r == Ok(SplitNames(BeforeFirst(code, ":=")))
    ensures r.Err? ==> r.error == AttributeError && DeclaredSymbol(code) in {Some(VarKeyword), Some(ConstKeyword), Some(TypeKeyword)}
  {
    match DeclaredSymbol(code)
    case None => Ok([])
    case Some(Walrus) => Ok(SplitNames(BeforeFirst(code, ":=")))
    case Some(VarKeyword) => VarConstNames(code)
    case Some(ConstKeyword) => VarConstNames(code)
    case Some(TypeKeyword) => TypeName(code)
  }

  /**
   * The pieces of `w1, w2, …, wn ` (after optional leading spaces) split on
   * commas strip to the words: what `x, y := 1, 2` hands to `SplitNames`.
   */
  lemma {:induction false} SplitJoinedWords(lead: string, ws: seq<string>)
    requires ws != [] && forall i :: 0 <= i < |ws| ==> IsWord(ws[i])
    requires forall c :: c in lead ==> c == ' '
    ensures SplitNames(lead + Join(ws, ", ") + " ") == ws
    decreases |ws|
  {
    var w := ws[0];
    if |ws| == 1 {
      SplitOneWord(lead, w);
      assert lead + Join(ws, ", ") + " " == lead + w + " ";
      assert [w] == ws;
    } else {
      var tail := " " + Join(ws[1..], ", ") + " ";
      JoinStep(lead, ws, tail);
      SplitJoinedWords(" ", ws[1..]);
      SplitFirstWord(lead, w, tail);
      assert [w] + ws[1..] == ws;
    }
  }

  lemma SplitOneWord(lead: string, w: string)
    requires IsWord(w) && forall c :: c in lead ==> c == ' '
    ensures SplitNames(lead + w + " ") == [w]
  {
    var t := lead + w + " ";
    PaddedWordChars(lead, w, " ");
    SplitNone(t, ',');
    StripNonEmptyCons(t, []);
    StripBoth(lead, w, " ", Whitespace);
  }

  lemma SplitFirstWord(lead: string, w: string, tail: string)
    requires IsWord(w) && forall c :: c in lead ==> c == ' '
    ensures SplitNames((lead + w) + [','] + tail) == [w] + SplitNames(tail)
  {
    PaddedWordChars(lead, w, []);
    assert lead + w + [] == lead + w;
    SplitAtFirst(lead + w, tail, ',');
    StripNonEmptyCons(lead + w, Split(tail, ','));
    StripPadded(lead, w, Whitespace);
  }

  /** A word padded with spaces has no comma, and its ends are what `strip()` keeps. */
  lemma PaddedWordChars(lead: string, w: string, trail: string)
    requires IsWord(w) && forall c :: c in lead ==> c == ' '
    requires forall c :: c in trail ==> c == ' '
    ensures ',' !in lead + w + trail
    ensures w[0] !in Whitespace && w[|w| - 1] !in Whitespace
    ensures forall c :: c in lead ==> c in Whitespace
    ensures forall c :: c in trail ==> c in Whitespace
  {
    assert IsWordChar(w[0]) && IsWordChar(w[|w| - 1]);
    forall c | c in lead + w + trail
      ensures c != ','
    {
      if c in w {
        var i :| 0 <= i < |w| && w[i] == c;
        assert IsWordChar(w[i]);
      }
    }
  }

  lemma JoinStep(lead: string, ws: seq<string>, tail: string)
    requires |ws| > 1 && tail == " " + Join(ws[1..], ", ") + " "
    ensures lead + Join(ws, ", ") + " " == (lead + ws[0]) + [','] + tail
  {
    assert Join(ws, ", ") == ws[0] + ", " + Join(ws[1..], ", ");
  }

  /** `w1, …, wn := rhs` declares exactly `w1`, …, `wn`, in that order, whatever the right-hand side. */
  lemma {:induction false} WalrusNames(ws: seq<string>, rhs: string)
    requires ws != [] && forall i :: 0 <= i < |ws| ==> IsWord(ws[i])
    ensures ClauseNames(Join(ws, ", ") + " := " + rhs) == Ok(ws)
  {
    var lhs := Join(ws, ", ") + " ";
    var code := Join(ws, ", ") + " := " + rhs;
    WalrusSplit(ws, rhs, lhs, code);
    SplitJoinedWords([], ws);
    assert [] + Join(ws, ", ") + " " == lhs;
    assert SplitNames(lhs) == ws;
    WalrusClause(code);
  }

  lemma WalrusClause(code: string)
    requires HasInfix(code, ":=")
    ensures ClauseNames(code) == Ok(SplitNames(BeforeFirst(code, ":=")))
  {
  }

  lemma {:induction false} WalrusSplit(ws: seq<string>, rhs: string, lhs: string, code: string)
    requires forall i :: 0 <= i < |ws| ==> IsWord(ws[i])
    requires lhs == Join(ws, ", ") + " " && code == Join(ws, ", ") + " := " + rhs
    ensures BeforeFirst(code, ":=") == lhs && HasInfix(code, ":=")
  {
    assert code == lhs + ":=" + (" " + rhs);
    WordsLack(ws, ':');
    JoinWithout(ws, ", ", ':');
    BeforeFirstBefore(lhs, ":=", " " + rhs);
  }

  /** No word holds a character that is not a word character. */
  lemma {:induction false} WordsLack(ws: seq<string>, c: char)
    requires !IsWordChar(c) && forall i :: 0 <= i < |ws| ==> IsWord(ws[i])
    ensures forall i :: 0 <= i < |ws| ==> c !in ws[i]
  {
    forall i | 0 <= i < |ws|
      ensures c !in ws[i]
    {
      assert IsWord(ws[i]);
    }
  }

  /** `var w …` or `const w …` with a non-word character after `w` and no `:=` declares `w` alone. */
  lemma {:induction false} KeywordOneName(kw: string, w: string, ty: string)
    requires kw == "var " || kw == "const "
    requires IsWord(w) && (ty == [] || (!IsWordChar(ty[0]) && ty[0] != ','))
    requires ':' !in ty
    ensures ClauseNames(kw + w + ty) == Ok([w])
  {
    var code := kw + w + ty;
    KeywordClause(kw, w, ty);
    WordRunOfWord(w, ty);
    VarConstNamesWords(code);
    assert (w + ty)[|w|..] == ty;
    assert VarConstNames(code) == Ok([w] + ContinuationWords(ty));
    assert ItemLength(ty) == 0;
    assert ContinuationWords(ty) == [];
    assert [w] + [] == [w];
  }

  /** A clause that starts with `var ` or `const ` and has no `:` is dispatched on its keyword. */
  lemma {:induction false} KeywordClause(kw: string, w: string, ty: string)
    requires kw == "var " || kw == "const "
    requires IsWord(w) && ':' !in ty
    ensures AfterKeyword(kw + w + ty) == Some(w + ty)
    ensures ClauseNames(kw + w + ty) == VarConstNames(kw + w + ty)
  {
    var code := kw + w + ty;
    WordsLack([w], ':');
    assert ':' !in code;
    NoInfixWithout(code, ":=");
    if kw == "var " {
      assert code[..4] == kw && code[4..] == w + ty;
      assert DeclaredSymbol(code) == Some(VarKeyword);
    } else {
      assert code[0] == 'c' && code[..6] == kw && code[6..] == w + ty;
      assert DeclaredSymbol(code) == Some(ConstKeyword);
    }
  }

  /** The names of the clauses in order, or the first clause's exception. */
  function ClausesNames(clauses: seq<string>): (r: Result<seq<string>>)
    ensures r.Err? <==> exists i :: 0 <= i < |clauses| && ClauseNames(clauses[i]).Err?
    ensures r.Err? ==> r.error == AttributeError
  {
    if clauses == [] then Ok([])
    else match ClauseNames(clauses[0])
      case Err(e) => Err(e)
      case Ok(names) =>
        match ClausesNames(clauses[1..])
        case Err(e) => assert clauses[1..][0] == clauses[1]; Err(e)
        case Ok(more) =>
          assert forall i :: 1 <= i < |clauses| ==> clauses[i] == clauses[1..][i - 1];
          Ok(names + more)
  }

  /** `get_declared_varis(code)`: the names every real `;`-clause of the line declares, in order. */
  function LineNames(line: string): (r: Result<seq<string>>)
    ensures r.Err? ==> r.error == AttributeError
  {
    ClausesNames(FilterRealCodes(Split(line, ';')))
  }

  /** Clauses that declare nothing contribute nothing. */
  lemma {:induction false} ClausesNamesSkip(clauses: seq<string>, more: seq<string>)
    requires forall c :: c in clauses ==> DeclaredSymbol(c) == None
    ensures ClausesNames(clauses + more) == ClausesNames(more)
  {
    if clauses != [] {
      assert clauses[0] in clauses;
      assert (clauses + more)[1..] == clauses[1..] + more;
      ClausesNamesSkip(clauses[1..], more);
      assert ClauseNames(clauses[0]) == Ok([]);
      match ClausesNames(clauses[1..] + more)
      case Err(_) =>
      case Ok(m) => assert [] + m == m;
    } else {
      assert clauses + more == more;
    }
  }

  /** The names of a line are those of its clauses, concatenated: the names of `a; b` are those of `a`, then those of `b`. */
  lemma {:induction false} ClausesNamesAppend(xs: seq<string>, ys: seq<string>)
    ensures ClausesNames(xs + ys).Ok? <==> ClausesNames(xs).Ok? && ClausesNames(ys).Ok?
    ensures ClausesNames(xs + ys).Ok? ==> ClausesNames(xs + ys).value == ClausesNames(xs).value + ClausesNames(ys).value
  {
    if xs == [] {
      assert xs + ys == ys;
    } else {
      assert (xs + ys)[0] == xs[0] && (xs + ys)[1..] == xs[1..] + ys;
      ClausesNamesAppend(xs[1..], ys);
      if ClauseNames(xs[0]).Ok? && ClausesNames(xs[1..]).Ok? && ClausesNames(ys).Ok? {
        var a := ClauseNames(xs[0]).value;
        assert ClausesNames(xs + ys).value == a + (ClausesNames(xs[1..]).value + ClausesNames(ys).value);
      }
    }
  }
}
