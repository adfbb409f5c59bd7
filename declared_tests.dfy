/**
 * The `is_declared` and `get_declared_varis` examples of test/block_test.py,
 * stated against the model of gonsole/block/block.py and
 * gonsole/block/declared.py. Each example is an instance of a lemma about
 * every one-line fragment of the same shape.
 */
module DeclaredTests {
  import opened Wrappers
  import opened Text
  import opened Codes
  import opened Declared
  import opened Blocks

  /** A one-clause fragment is a declaration exactly when its clause has a declaration symbol. */
  lemma {:induction false} OneClauseDeclared(code: string)
    requires ';' !in code && IsRealCode(code)
    ensures IsDeclared(NewBlock(code)) == Ok(DeclaredSymbol(code).Some?)
  {
    SplitNone(code, ';');
    FilterRealCodesKeepsReal([code]);
  }

  /** `a := 1`: a one-clause walrus assignment is a declaration. */
  lemma {:induction false} WalrusDeclared(n: string, rhs: string)
    requires IsWord(n) && IsRealCode(n) && ';' !in rhs
    ensures IsDeclared(NewBlock(n + " := " + rhs)) == Ok(true)
  {
    var code := n + " := " + rhs;
    assert ';' !in code && IsRealCode(code) by {
      WordsLack([n], ';');
      assert code[0] == n[0];
    }
    assert HasInfix(code, ":=") by {
      assert Join([n], ", ") == n;
      WalrusSplit([n], rhs, n + " ", code);
    }
    OneClauseDeclared(code);
  }

  /** `var a int64` and `const x string = "hello world"`: a one-clause `var` or `const` declaration is one. */
  lemma {:induction false} KeywordDeclared(kw: string, w: string, ty: string)
    requires kw == "var " || kw == "const "
    requires IsWord(w) && ';' !in ty
    ensures IsDeclared(NewBlock(kw + w + ty)) == Ok(true)
  {
    var code := kw + w + ty;
    WordsLack([w], ';');
    assert ';' !in code;
    assert code[..|kw|] == kw;
    assert code[0] == kw[0];
    OneClauseDeclared(code);
  }

  /**
   * `a := 1; a++`: when the last clause, after `; `, has no `:`, the fragment
   * is no declaration, whatever the clauses before it declare.
   */
  lemma {:induction false} LaterClauseUndeclared(earlier: string, last: string)
    requires ';' !in last && ':' !in last && last != [] && last[0] == ' '
    ensures IsDeclared(NewBlock(earlier + [';'] + last)) == Ok(false)
  {
    NoInfixWithout(last, ":=");
    IsDeclaredLastClause(NewBlock(earlier + [';'] + last), earlier, last);
  }

  /** `a >= 1`: a one-clause fragment with no `:` that starts with no keyword letter is no declaration. */
  lemma {:induction false} ComparisonUndeclared(code: string)
    requires ';' !in code && ':' !in code && IsRealCode(code)
    requires code[0] != 'v' && code[0] != 'c' && code[0] != 't'
    ensures IsDeclared(NewBlock(code)) == Ok(false)
  {
    NoInfixWithout(code, ":=");
    OneClauseDeclared(code);
  }

  /** The names of a one-clause fragment that opens no batch are those of its clause. */
  lemma {:induction false} OneLineNames(code: string)
    requires ';' !in code && IsRealCode(code) && !OpensBatch(code)
    ensures BlockNames(NewBlock(code)) == ClauseNames(code)
  {
    var b := NewBlock(code);
    SplitNone(code, ';');
    assert LastSemicolonClause(code) == code;
    FilterRealCodesKeepsReal([code]);
    assert LineNames(code) == ClausesNames([code]);
    assert [code][1..] == [];
    assert Elems(b)[1..] == [];
    match ClauseNames(code)
    case Err(e) =>
    case Ok(names) =>
      assert names + [] == names && [] + names == names;
      assert ClausesNames([code][1..]) == Ok([]);
      assert LineNames(code) == Ok(names);
      assert ElemsNames(Elems(b)[1..]) == Ok([]);
      assert ElemsNames(Elems(b)) == Ok(names);
      assert BatchNames(b) == Ok([]);
  }

  /** `var a int64` declares `a` and `const x string = "hello world"` declares `x`: one keyword declaration, one name. */
  lemma {:induction false} KeywordNames(kw: string, w: string, ty: string)
    requires kw == "var " || kw == "const "
    requires IsWord(w) && (ty == [] || (!IsWordChar(ty[0]) && ty[0] != ','))
    requires ':' !in ty && ';' !in ty
    ensures BlockNames(NewBlock(kw + w + ty)) == Ok([w])
  {
    var code := kw + w + ty;
    var k := |kw| - 1;
    WordsLack([w], ';');
    assert ';' !in code;
    assert code[0] == kw[0];
    assert code[k..] == [' '] + w + ty;
    var after := code[k..];
    assert after[1] == w[0];
    assert SpaceCount(after) == 1;
    if kw == "var " {
      assert "var" <= code;
    } else {
      assert !("var" <= code) && "const" <= code;
    }
    assert !OpensBatch(code);
    KeywordOneName(kw, w, ty);
    OneLineNames(code);
  }

  /** `a := "123"` declares `a`: one walrus assignment to one name, one name. */
  lemma {:induction false} WalrusNamesOne(n: string, rhs: string)
    requires IsWord(n) && IsRealCode(n) && n[0] != 'v' && n[0] != 'c' && ';' !in rhs
    ensures BlockNames(NewBlock(n + " := " + rhs)) == Ok([n])
  {
    var code := n + " := " + rhs;
    assert Join([n], ", ") == n;
    WalrusNames([n], rhs);
    WordsLack([n], ';');
    assert ';' !in code;
    assert code[0] == n[0];
    assert !("var" <= code) && !("const" <= code);
    OneLineNames(code);
  }
}
