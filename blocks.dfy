/**
 * The block tree of gonsole/block/block.py (and its older variants in
 * gonsole/block.py and libs/block.py): a fragment's opener line followed by
 * appended lines and nested blocks, its flattening (`get_codes`), its
 * re-indentation (`deflate`), its tokens (`parse_to_codes`) and the
 * declaration queries (`is_declared`, `get_declared_varis`).
 *
 * A block is a value: the generator is the only holder of a block while lines
 * are appended to it, and nothing appends to a block once it is built, so the
 * in-place `append` is modelled as building a longer value.
 */
module Blocks {
  import opened Wrappers
  import opened Text
  import opened Codes
  import opened Tokenizer
  import opened Indent
  import opened Declared

  /** A fragment: the opener line, then the appended elements. `codes[0]` is always the opener, a line. */
  datatype Block = Block(opener: string, rest: seq<Elem>)

  /** An element of `codes` after the first: a literal line or a nested block. */
  datatype Elem = Line(text: string) | Nested(block: Block)

  /** The `codes` list. */
  function Elems(b: Block): seq<Elem>
  {
    [Line(b.opener)] + b.rest
  }

  /** `Block(code)`: the only element is the opener line. */
  function NewBlock(code: string): (b: Block)
    ensures Elems(b) == [Line(code)]
  {
    Block(code, [])
  }

  /** `append(code)`: exactly one element more, at the end; the others are kept. */
  function Append(b: Block, e: Elem): (r: Block)
    ensures Elems(r) == Elems(b) + [e]
  {
    Block(b.opener, b.rest + [e])
  }

  // ----- flattening and indentation -----

  /** The literal lines of the block, depth first: what the `get_codes` generator of libs/block.py yields. */
  function Flatten(b: Block): (r: seq<string>)
    ensures r != [] && r[0] == b.opener
    decreases b, 1
  {
    [b.opener] + FlattenFrom(b, 0)
  }

  /** The lines of `b.rest[i..]`; recursion over the block keeps the nesting well founded. */
  function FlattenFrom(b: Block, i: nat): seq<string>
    requires i <= |b.rest|
    decreases b, 0, |b.rest| - i
  {
    if i == |b.rest| then []
    else
      (match b.rest[i] case Line(t) => [t] case Nested(c) => Flatten(c)) + FlattenFrom(b, i + 1)
  }

  /** The lines one element stands for. */
  function FlattenElem(e: Elem): seq<string>
  {
    match e case Line(t) => [t] case Nested(c) => Flatten(c)
  }

  /** The lines of a list of elements, in order. */
  function FlattenElems(es: seq<Elem>): seq<string>
  {
    if es == [] then [] else FlattenElem(es[0]) + FlattenElems(es[1..])
  }

  lemma {:induction false} FlattenFromElems(b: Block, i: nat)
    requires i <= |b.rest|
    ensures FlattenFrom(b, i) == FlattenElems(b.rest[i..])
    decreases |b.rest| - i
  {
    if i < |b.rest| {
      FlattenFromElems(b, i + 1);
      assert b.rest[i..][1..] == b.rest[i + 1..];
    }
  }

  /** The opener, then the lines of each element in order. */
  lemma FlattenUnfold(b: Block)
    ensures Flatten(b) == [b.opener] + FlattenElems(b.rest)
    ensures Flatten(b) == FlattenElems(Elems(b))
  {
    FlattenFromElems(b, 0);
    assert b.rest[0..] == b.rest;
    assert Elems(b)[1..] == b.rest;
  }

  /** Each line indented by `indent` units, one more per nesting level: what the `deflate` generator of libs/block.py yields. */
  function Deflated(b: Block, indent: nat): (r: seq<string>)
    decreases b, 1
  {
    [InflateSpace(b.opener, indent)] + DeflatedFrom(b, indent, 0)
  }

  function DeflatedFrom(b: Block, indent: nat, i: nat): seq<string>
    requires i <= |b.rest|
    decreases b, 0, |b.rest| - i
  {
    if i == |b.rest| then []
    else
      (match b.rest[i] case Line(t) => [InflateSpace(t, indent)] case Nested(c) => Deflated(c, indent + 1))
      + DeflatedFrom(b, indent, i + 1)
  }

  function DeflatedElem(e: Elem, indent: nat): seq<string>
  {
    match e case Line(t) => [InflateSpace(t, indent)] case Nested(c) => Deflated(c, indent + 1)
  }

  function DeflatedElems(es: seq<Elem>, indent: nat): seq<string>
  {
    if es == [] then [] else DeflatedElem(es[0], indent) + DeflatedElems(es[1..], indent)
  }

  lemma {:induction false} DeflatedFromElems(b: Block, indent: nat, i: nat)
    requires i <= |b.rest|
    ensures DeflatedFrom(b, indent, i) == DeflatedElems(b.rest[i..], indent)
    decreases |b.rest| - i
  {
    if i < |b.rest| {
      DeflatedFromElems(b, indent, i + 1);
      assert b.rest[i..][1..] == b.rest[i + 1..];
    }
  }

  lemma DeflatedUnfold(b: Block, indent: nat)
    ensures Deflated(b, indent) == DeflatedElems(Elems(b), indent)
  {
    DeflatedFromElems(b, indent, 0);
    assert b.rest[0..] == b.rest;
    assert Elems(b)[1..] == b.rest;
  }

  /** The nesting depth of each flattened line: 0 for the block's own lines. */
  function Depths(b: Block): seq<nat>
    decreases b, 1
  {
    [0] + DepthsFrom(b, 0)
  }

  function DepthsFrom(b: Block, i: nat): seq<nat>
    requires i <= |b.rest|
    decreases b, 0, |b.rest| - i
  {
    if i == |b.rest| then []
    else (match b.rest[i] case Line(_) => [0] case Nested(c) => Deeper(Depths(c))) + DepthsFrom(b, i + 1)
  }

  /** Every depth one more. */
  function Deeper(ds: seq<nat>): (r: seq<nat>)
    ensures |r| == |ds| && forall i :: 0 <= i < |ds| ==> r[i] == ds[i] + 1
  {
    seq(|ds|, i requires 0 <= i < |ds| => ds[i] + 1)
  }

  /** `lines` is `codes`, line by line, indented by `indent` units plus the line's depth. */
  predicate IndentedAs(lines: seq<string>, codes: seq<string>, depths: seq<nat>, indent: nat)
  {
    |lines| == |codes| == |depths|
    && forall i :: 0 <= i < |lines| ==> lines[i] == InflateSpace(codes[i], indent + depths[i])
  }

  lemma IndentedAsAppend(l1: seq<string>, c1: seq<string>, d1: seq<nat>, l2: seq<string>, c2: seq<string>, d2: seq<nat>, indent: nat)
    requires IndentedAs(l1, c1, d1, indent) && IndentedAs(l2, c2, d2, indent)
    ensures IndentedAs(l1 + l2, c1 + c2, d1 + d2, indent)
  {
    forall i | 0 <= i < |l1 + l2|
      ensures (l1 + l2)[i] == InflateSpace((c1 + c2)[i], indent + (d1 + d2)[i])
    {
      if i >= |l1| {
        assert (l1 + l2)[i] == l2[i - |l1|];
      }
    }
  }

  lemma IndentedAsDeeper(lines: seq<string>, codes: seq<string>, depths: seq<nat>, indent: nat)
    requires IndentedAs(lines, codes, depths, indent + 1)
    ensures IndentedAs(lines, codes, Deeper(depths), indent)
  {
  }

  /**
   * `deflate(k)` yields exactly as many lines as `get_codes`, and each is the
   * matching `get_codes` line prefixed by `k` plus its depth units.
   */
  lemma {:induction false} DeflateIndents(b: Block, indent: nat)
    ensures IndentedAs(Deflated(b, indent), Flatten(b), Depths(b), indent)
    decreases b, 1
  {
    DeflateFromIndents(b, indent, 0);
    IndentedAsAppend([InflateSpace(b.opener, indent)], [b.opener], [0], DeflatedFrom(b, indent, 0), FlattenFrom(b, 0), DepthsFrom(b, 0), indent);
  }

  lemma {:induction false} DeflateFromIndents(b: Block, indent: nat, i: nat)
    requires i <= |b.rest|
    ensures IndentedAs(DeflatedFrom(b, indent, i), FlattenFrom(b, i), DepthsFrom(b, i), indent)
    decreases b, 0, |b.rest| - i
  {
    if i < |b.rest| {
      DeflateFromIndents(b, indent, i + 1);
      match b.rest[i]
      case Line(t) =>
        IndentedAsAppend([InflateSpace(t, indent)], [t], [0], DeflatedFrom(b, indent, i + 1), FlattenFrom(b, i + 1), DepthsFrom(b, i + 1), indent);
      case Nested(c) =>
        DeflateIndents(c, indent + 1);
        IndentedAsDeeper(Deflated(c, indent + 1), Flatten(c), Depths(c), indent);
        IndentedAsAppend(Deflated(c, indent + 1), Flatten(c), Deeper(Depths(c)), DeflatedFrom(b, indent, i + 1), FlattenFrom(b, i + 1), DepthsFrom(b, i + 1), indent);
    }
  }

  /** A block without nested blocks deflates at indent 0 to its own lines, unchanged. */
  lemma {:induction false} DeflateFlat(b: Block)
    requires forall i :: 0 <= i < |b.rest| ==> b.rest[i].Line?
    ensures Deflated(b, 0) == Flatten(b)
  {
    DeflateIndents(b, 0);
    FlatDepths(b, 0);
    forall i | 0 <= i < |Flatten(b)| ensures Deflated(b, 0)[i] == Flatten(b)[i] {
      assert Depths(b)[i] == 0 by {
        if i > 0 {
          assert Depths(b)[i] == DepthsFrom(b, 0)[i - 1];
        }
      }
      InflateSpaceZero(Flatten(b)[i]);
    }
  }

  lemma {:induction false} FlatDepths(b: Block, i: nat)
    requires i <= |b.rest|
    requires forall j :: 0 <= j < |b.rest| ==> b.rest[j].Line?
    ensures forall k :: 0 <= k < |DepthsFrom(b, i)| ==> DepthsFrom(b, i)[k] == 0
    decreases |b.rest| - i
  {
    if i < |b.rest| {
      FlatDepths(b, i + 1);
    }
  }

  lemma {:induction false} FlattenElemsAppend(xs: seq<Elem>, ys: seq<Elem>)
    ensures FlattenElems(xs + ys) == FlattenElems(xs) + FlattenElems(ys)
  {
    if xs == [] {
      assert xs + ys == ys;
    } else {
      assert (xs + ys)[0] == xs[0] && (xs + ys)[1..] == xs[1..] + ys;
      FlattenElemsAppend(xs[1..], ys);
    }
  }

  lemma {:induction false} DeflatedElemsAppend(xs: seq<Elem>, ys: seq<Elem>, indent: nat)
    ensures DeflatedElems(xs + ys, indent) == DeflatedElems(xs, indent) + DeflatedElems(ys, indent)
  {
    if xs == [] {
      assert xs + ys == ys;
    } else {
      assert (xs + ys)[0] == xs[0] && (xs + ys)[1..] == xs[1..] + ys;
      DeflatedElemsAppend(xs[1..], ys, indent);
    }
  }

  /**
   * `get_codes` of gonsole/block/block.py: a loop over `codes` that extends
   * the result with each nested block's lines and appends each literal line.
   * It returns the same list as the libs/block.py generator.
   */
  method GetCodes(b: Block) returns (codes: seq<string>)
    ensures codes == Flatten(b)
    decreases b
  {
    var elems := Elems(b);
    codes := [];
    var i := 0;
    while i < |elems|
      invariant 0 <= i <= |elems|
      invariant codes == FlattenElems(elems[..i])
    {
      assert elems[..i + 1] == elems[..i] + [elems[i]];
      FlattenElemsAppend(elems[..i], [elems[i]]);
      match elems[i] {
        case Line(t) =>
          codes := codes + [t];
        case Nested(c) =>
          assert elems[i] == b.rest[i - 1];
          var sub := GetCodes(c);
          codes := codes + sub;
      }
      i := i + 1;
    }
    assert elems[..i] == elems;
    FlattenUnfold(b);
  }

  /** `deflate(indent)` of gonsole/block/block.py: the same loop, indenting literal lines and nested blocks one unit deeper. */
  method Deflate(b: Block, indent: nat) returns (lines: seq<string>)
    ensures lines == Deflated(b, indent)
    decreases b
  {
    var elems := Elems(b);
    lines := [];
    var i := 0;
    while i < |elems|
      invariant 0 <= i <= |elems|
      invariant lines == DeflatedElems(elems[..i], indent)
    {
      assert elems[..i + 1] == elems[..i] + [elems[i]];
      DeflatedElemsAppend(elems[..i], [elems[i]], indent);
      match elems[i] {
        case Line(t) =>
          lines := lines + [InflateSpace(t, indent)];
        case Nested(c) =>
          assert elems[i] == b.rest[i - 1];
          var sub := Deflate(c, indent + 1);
          lines := lines + sub;
      }
      i := i + 1;
    }
    assert elems[..i] == elems;
    DeflatedUnfold(b, indent);
  }

  // ----- tokens -----

  /** `parse_to_codes` of gonsole/block/block.py: the tokens of every flattened line, filtered. */
  function ParseToCodes(b: Block): (r: seq<string>)
    ensures forall t :: t in r ==> IsRealCode(t)
    ensures IsSubsequence(r, ParseLines(Flatten(b), SplitSymbols))
  {
    Tokens(Flatten(b))
  }

  /** `parse_to_codes` of gonsole/block.py: the same without splitting on spaces. */
  function LegacyParseToCodes(b: Block): (r: seq<string>)
    ensures forall t :: t in r ==> IsRealCode(t)
    ensures IsSubsequence(r, ParseLines(Flatten(b), LegacySplitSymbols))
  {
    LegacyTokens(Flatten(b))
  }

  // ----- declarations (gonsole/block/block.py with gonsole/block/declared.py) -----

  /** The real `;`-clauses of the opener: `filter_real_codes(codes[0].split(";"))`. */
  function OpenerClauses(b: Block): seq<string>
  {
    FilterRealCodes(Split(b.opener, ';'))
  }

  /**
   * `is_declared`: whether the last real `;`-clause of the opener has a
   * declaration symbol; `IndexError` (`[][-1]`) when the opener has no real clause.
   */
  function IsDeclared(b: Block): (r: Result<bool>)
    ensures r.Err? <==> OpenerClauses(b) == []
    ensures r.Err? ==> r.error == IndexError
    ensures r.Ok? ==> (r.value <==> DeclaredSymbol(Last(OpenerClauses(b))).Some?)
  {
    var clauses := OpenerClauses(b);
    if clauses == [] then Err(IndexError) else Ok(DeclaredSymbol(Last(clauses)).Some?)
  }

  /** Only the last real clause of the opener matters: the other lines and the earlier clauses are ignored. */
  lemma {:induction false} IsDeclaredLastClause(b: Block, earlier: string, last: string)
    requires b.opener == earlier + [';'] + last
    requires ';' !in last && IsRealCode(last)
    ensures IsDeclared(b) == Ok(DeclaredSymbol(last).Some?)
  {
    var pieces := Split(b.opener, ';');
    SplitLastPiece(earlier, last);
    assert pieces == Split(earlier, ';') + [last];
    FilterRealCodesAppend(Split(earlier, ';'), [last]);
    FilterRealCodesKeepsReal([last]);
  }

  /** The last piece of `a;b` split on `;` is `b` when `b` has no `;`. */
  lemma {:induction false} SplitLastPiece(a: string, b: string)
    requires ';' !in b
    ensures Split(a + [';'] + b, ';') == Split(a, ';') + [b]
    decreases |a|
  {
    if ';' !in a {
      SplitAtFirst(a, b, ';');
      SplitNone(a, ';');
      SplitNone(b, ';');
    } else {
      var j := FirstIndex(a, ';');
      var head, tail := a[..j], a[j + 1..];
      SplitLastStep(a, b, j, head, tail);
      SplitLastPiece(tail, b);
      assert [head] + (Split(tail, ';') + [b]) == ([head] + Split(tail, ';')) + [b];
    }
  }

  lemma SplitLastStep(a: string, b: string, j: nat, head: string, tail: string)
    requires j < |a| && a[j] == ';' && ';' !in a[..j] && head == a[..j] && tail == a[j + 1..]
    ensures Split(a + [';'] + b, ';') == [head] + Split(tail + [';'] + b, ';')
    ensures Split(a, ';') == [head] + Split(tail, ';')
  {
    assert a == head + [';'] + tail;
    assert a + [';'] + b == head + [';'] + (tail + [';'] + b);
    SplitAtFirst(head, tail + [';'] + b, ';');
    SplitAtFirst(head, tail, ';');
  }

  /** The index of the first occurrence of `c`. */
  function FirstIndex(s: string, c: char): (i: nat)
    requires c in s
    ensures i < |s| && s[i] == c && c !in s[..i]
  {
    if s[0] == c then 0 else 1 + FirstIndex(s[1..], c)
  }

  /** The text after the last `;` of the opener: `codes[0].rsplit(";", 1)[-1]`. */
  function LastSemicolonClause(line: string): string
  {
    Last(Split(line, ';'))
  }

  /** `BATCH_VARIABLE_DECLARED_RE.match`: `var` or `const`, spaces, then `(`. */
  predicate OpensBatch(clause: string)
  {
    var after := if "var" <= clause then clause[3..] else if "const" <= clause then clause[5..] else [];
    ("var" <= clause || "const" <= clause)
    && SpaceCount(after) < |after| && after[SpaceCount(after)] == '('
  }

  /**
   * `get_batch_declared_varis(codes)`: no names unless the last clause of the
   * opener opens a `var (`/`const (` batch. In that branch `codes[1]` is read
   * (`IndexError` when there is none), then its `get_codes()` (`AttributeError`
   * on a line), then a two-parameter helper is called with one argument
   * (`TypeError`; a nested block always has at least its opener line).
   */
  function BatchNames(b: Block): (r: Result<seq<string>>)
    ensures !OpensBatch(LastSemicolonClause(b.opener)) ==> r == Ok([])
    ensures OpensBatch(LastSemicolonClause(b.opener)) ==> r.Err?
    ensures r.Err? ==> r.error == (if b.rest == [] then IndexError else if b.rest[0].Line? then AttributeError else TypeError)
  {
    if !OpensBatch(LastSemicolonClause(b.opener)) then Ok([])
    else if b.rest == [] then Err(IndexError)
    else match b.rest[0]
      case Line(_) => Err(AttributeError)
      case Nested(c) => assert Flatten(c) != []; Err(TypeError)
  }

  /** `get_declared_varis(code)` for each element; a nested block has no `split`, an `AttributeError`. */
  function ElemsNames(es: seq<Elem>): (r: Result<seq<string>>)
    ensures r.Ok? ==> forall i :: 0 <= i < |es| ==> es[i].Line?
  {
    if es == [] then Ok([])
    else match es[0]
      case Nested(_) => Err(AttributeError)
      case Line(t) =>
        match LineNames(t)
        case Err(e) => Err(e)
        case Ok(names) =>
          match ElemsNames(es[1..])
          case Err(e) => Err(e)
          case Ok(more) =>
            assert forall i :: 1 <= i < |es| ==> es[i] == es[1..][i - 1];
            Ok(names + more)
  }

  /** The names of the lines, in order. */
  function LinesNames(lines: seq<string>): Result<seq<string>>
  {
    if lines == [] then Ok([])
    else match LineNames(lines[0])
      case Err(e) => Err(e)
      case Ok(names) =>
        match LinesNames(lines[1..])
        case Err(e) => Err(e)
        case Ok(more) => Ok(names + more)
  }

  /**
   * `Block.get_declared_varis`: the batch names, then the names each element
   * declares. A `var (`/`const (` opener fails as the batch helper does;
   * otherwise a block of lines gives, error or names, what its lines give in
   * order, and a nested block fails with `AttributeError`.
   */
  function BlockNames(b: Block): (r: Result<seq<string>>)
    ensures r.Ok? ==> forall i :: 0 <= i < |b.rest| ==> b.rest[i].Line?
    ensures r.Ok? ==> Ok(r.value) == LinesNames(Flatten(b))
    ensures OpensBatch(LastSemicolonClause(b.opener)) ==> r.Err? && r == BatchNames(b)
    ensures !OpensBatch(LastSemicolonClause(b.opener)) && (forall i :: 0 <= i < |b.rest| ==> b.rest[i].Line?) ==>
      r == LinesNames(Flatten(b))
  {
    match BatchNames(b)
    case Err(e) => Err(e)
    case Ok(batch) =>
      assert batch == [];
      FlattenUnfold(b);
      assert forall i :: 0 <= i < |b.rest| ==> b.rest[i] == Elems(b)[i + 1];
      if forall i :: 0 <= i < |b.rest| ==> b.rest[i].Line? then
        LinesNamesOfFlat(Elems(b));
        match ElemsNames(Elems(b))
        case Err(e) => Err(e)
        case Ok(names) => assert batch + names == names; Ok(batch + names)
      else
        match ElemsNames(Elems(b))
        case Err(e) => Err(e)
        case Ok(_) => assert false; Err(AttributeError)
  }

  /** On elements that are all lines, the per-element names are the names of the flattened lines, error included. */
  lemma {:induction false} LinesNamesOfFlat(es: seq<Elem>)
    requires forall i :: 0 <= i < |es| ==> es[i].Line?
    ensures LinesNames(FlattenElems(es)) == ElemsNames(es)
  {
    if es != [] {
      assert forall i :: 1 <= i < |es| ==> es[i] == es[1..][i - 1];
      LinesNamesOfFlat(es[1..]);
      assert FlattenElems(es) == [es[0].text] + FlattenElems(es[1..]);
      assert FlattenElems(es)[1..] == FlattenElems(es[1..]);
    }
  }

  // ----- declarations of the older gonsole/block.py -----

  /** `(var|const) (?P<vari>\w+) ` matches at the start of `code`, capturing `n`. */
  predicate KeywordForm(code: string, n: string)
  {
    IsWord(n) && (("var " <= code && n + " " <= code[4..]) || ("const " <= code && n + " " <= code[6..]))
  }

  /** `(?P<vari>\w+)[ ]*:=[^=]+` matches at the start of `code`, capturing `n`. */
  predicate AssignForm(code: string, n: string)
  {
    IsWord(n) && n <= code
    && var op := TrimLeft(code[|n|..], {' '});
    ":=" <= op && |op| > 2 && op[2] != '='
  }

  /** `type (?P<vari>\w+) *` matches at the start of `code`, capturing `n`: the greedy `\w+` takes the whole word. */
  predicate TypeForm(code: string, n: string)
  {
    IsWord(n) && "type " <= code && n <= code[5..] && (|code| == 5 + |n| || !IsWordChar(code[5 + |n|]))
  }

  /**
   * `_get_declared_vari` of gonsole/block.py: the first of three patterns
   * that matches at the start of the line, and the name it captures:
   * `(var|const) \w+ ` (a space must follow the name), then
   * `\w+[ ]*:=[^=]+`, then `type \w+`. A captured name is captured by one of
   * the patterns (`LegacyDeclaredVariSound`), and a match of any pattern is
   * found (`LegacyDeclaredVariMatches`).
   */
  function LegacyDeclaredVari(code: string): (r: Option<string>)
    ensures r.Some? ==> IsWord(r.value)
  {
    var after := if "var " <= code then code[4..] else if "const " <= code then code[6..] else [];
    var kw := WordRun(after);
    if ("var " <= code || "const " <= code) && kw != [] && |kw| < |after| && after[|kw|] == ' ' then
      Some(kw)
    else
      var w := WordRun(code);
      var tail := code[|w|..];
      var op := tail[SpaceCount(tail)..];
      if w != [] && ":=" <= op && |op| > 2 && op[2] != '=' then Some(w)
      else if "type " <= code && WordRun(code[5..]) != [] then Some(WordRun(code[5..]))
      else None
  }

  /** A captured name is the one a pattern captures. */
  lemma {:induction false} LegacyDeclaredVariSound(code: string)
    ensures var r := LegacyDeclaredVari(code);
      r.Some? ==> KeywordForm(code, r.value) || AssignForm(code, r.value) || TypeForm(code, r.value)
  {
    var after := if "var " <= code then code[4..] else if "const " <= code then code[6..] else [];
    var kw := WordRun(after);
    if ("var " <= code || "const " <= code) && kw != [] && |kw| < |after| && after[|kw|] == ' ' {
      KeywordBranch(code, if "var " <= code then 4 else 6, kw);
    } else {
      var w := WordRun(code);
      var tail := code[|w|..];
      var op := tail[SpaceCount(tail)..];
      if w != [] && ":=" <= op && |op| > 2 && op[2] != '=' {
        AssignBranch(code, w);
      } else if "type " <= code && WordRun(code[5..]) != [] {
        TypeBranch(code);
      }
    }
  }

  lemma {:induction false} KeywordBranch(code: string, k: nat, kw: string)
    requires (k == 4 && "var " <= code) || (k == 6 && "const " <= code)
    requires kw == WordRun(code[k..]) && kw != [] && |kw| < |code[k..]| && code[k..][|kw|] == ' '
    ensures KeywordForm(code, kw)
  {
    assert kw + " " <= code[k..];
  }

  lemma {:induction false} AssignBranch(code: string, w: string)
    requires w == WordRun(code) && w != []
    requires var tail := code[|w|..]; var op := tail[SpaceCount(tail)..]; ":=" <= op && |op| > 2 && op[2] != '='
    ensures AssignForm(code, w)
  {
    SpacesTrimmed(code[|w|..]);
  }

  lemma {:induction false} TypeBranch(code: string)
    requires "type " <= code && WordRun(code[5..]) != []
    ensures TypeForm(code, WordRun(code[5..]))
  {
  }

  /** What ` *` takes is what stripping spaces on the left removes. */
  lemma {:induction false} SpacesTrimmed(s: string)
    ensures s[SpaceCount(s)..] == TrimLeft(s, {' '})
  {
    if s != [] && s[0] == ' ' {
      SpacesTrimmed(s[1..]);
      assert s[1..][SpaceCount(s[1..])..] == s[SpaceCount(s)..];
    }
  }

  /**
   * Each pattern's match is found, with the name it captures: the three forms
   * exclude one another, so the order in which the patterns are tried never
   * changes the captured name.
   */
  lemma {:induction false} LegacyDeclaredVariMatches(code: string, n: string)
    requires KeywordForm(code, n) || AssignForm(code, n) || TypeForm(code, n)
    ensures LegacyDeclaredVari(code) == Some(n)
  {
    if KeywordForm(code, n) {
      LegacyKeywordMatch(code, n);
    } else if AssignForm(code, n) {
      LegacyAssignMatch(code, n);
    } else {
      LegacyTypeMatch(code, n);
    }
  }

  lemma {:induction false} LegacyKeywordMatch(code: string, n: string)
    requires KeywordForm(code, n)
    ensures LegacyDeclaredVari(code) == Some(n)
  {
    var k := if "var " <= code && n + " " <= code[4..] then 4 else 6;
    assert code[k..][|n|] == ' ';
    WordRunPrefix(n, code[k..]);
    if k == 6 {
      assert code[0] == 'c';
    }
  }

  lemma {:induction false} LegacyAssignMatch(code: string, n: string)
    requires AssignForm(code, n)
    ensures LegacyDeclaredVari(code) == Some(n)
  {
    var tail := code[|n|..];
    AssignTail(tail);
    WordRunPrefix(n, code);
    SpacesTrimmed(tail);
    if "var " <= code {
      AssignNotKeyword(code, n, 4);
    } else if "const " <= code {
      AssignNotKeyword(code, n, 6);
    }
  }

  /** An assignment to `var` or `const` does not match the keyword pattern. */
  lemma {:induction false} AssignNotKeyword(code: string, n: string, k: nat)
    requires AssignForm(code, n)
    requires (k == 4 && "var " <= code) || (k == 6 && "const " <= code)
    ensures WordRun(code[k..]) == []
  {
    var tail := code[|n|..];
    AssignTail(tail);
    WordRunPrefix(n, code);
    KeywordPrefixWord(code, k);
    assert |n| == k - 1;
    assert tail[1..] == code[k..];
    NoWordBeforeAssign(tail);
  }

  /** What follows the name of an assignment starts with a space or the `:` of `:=`. */
  lemma {:induction false} AssignTail(tail: string)
    requires ":=" <= TrimLeft(tail, {' '})
    ensures tail != [] && (tail[0] == ' ' || tail[0] == ':')
  {
    var t := TrimLeft(tail, {' '});
    assert t[0] == ':';
    if |tail| - |t| > 0 {
      assert tail[0] in {' '};
    } else {
      assert t == tail;
    }
  }

  /** Text that opens `:=` after a space and more spaces has no word after its first space. */
  lemma {:induction false} NoWordBeforeAssign(t: string)
    requires t != [] && t[0] == ' ' && ":=" <= TrimLeft(t, {' '})
    ensures WordRun(t[1..]) == []
  {
    var u := TrimLeft(t[1..], {' '});
    assert TrimLeft(t, {' '}) == u;
    assert u[0] == ':';
  }

  /** A line starting with `var ` or `const ` starts with the word `var` or `const`. */
  lemma {:induction false} KeywordPrefixWord(code: string, k: nat)
    requires (k == 4 && "var " <= code) || (k == 6 && "const " <= code)
    ensures WordRun(code) == code[..k - 1] && code[k - 1] == ' '
  {
    WordRunPrefix(code[..k - 1], code);
  }

  lemma {:induction false} LegacyTypeMatch(code: string, n: string)
    requires TypeForm(code, n)
    ensures LegacyDeclaredVari(code) == Some(n)
  {
    assert code[0] == 't' && code[4] == ' ';
    WordRunPrefix(code[..4], code);
    var tail := code[4..];
    assert tail[1] == n[0];
    assert SpaceCount(tail) == 1;
    WordRunPrefix(n, code[5..]);
  }

  /**
   * `is_declared` of gonsole/block.py: false for any block of more than one
   * element; otherwise whether the last real clause of the opener matches a
   * declaration pattern (`IndexError` when there is no real clause).
   */
  function LegacyIsDeclared(b: Block): (r: Result<bool>)
    ensures b.rest != [] ==> r == Ok(false)
    ensures b.rest == [] ==> (r.Err? <==> OpenerClauses(b) == [])
    ensures r == Ok(true) <==> b.rest == [] && OpenerClauses(b) != [] && LegacyDeclaredVari(Last(OpenerClauses(b))).Some?
  {
    if b.rest != [] then Ok(false)
    else
      var clauses := OpenerClauses(b);
      if clauses == [] then Err(IndexError) else Ok(LegacyDeclaredVari(Last(clauses)).Some?)
  }

  /** `get_declared_varis` of gonsole/block.py: at most one name per flattened line, nested lines included. */
  function LegacyLinesNames(lines: seq<string>): (r: seq<string>)
    ensures |r| <= |lines|
    ensures forall n :: n in r ==> IsWord(n)
  {
    if lines == [] then []
    else
      (match LegacyDeclaredVari(lines[0]) case Some(n) => [n] case None => []) + LegacyLinesNames(lines[1..])
  }

  function LegacyBlockNames(b: Block): (r: seq<string>)
    ensures |r| <= |Flatten(b)|
    ensures forall n :: n in r ==> IsWord(n)
  {
    LegacyLinesNames(Flatten(b))
  }
}
