/**
 * `Handler.scan`/`scan_used`/`inflate` of gonsole/handlers.py and the two
 * handlers that work directly on the registry: `PackageHandler` and
 * `FunctionHandler`. Scanning marks a declared name live when some token of a
 * block starts with it (for a package, with the last dot-separated segment of
 * its path).
 */
module Handlers {
  import opened Wrappers
  import opened Text
  import opened Indent
  import opened Blocks
  import opened Registry
  import Declared

  /** `is_assigned(name, code)` of each handler: `code.find(name) == 0`, on the last path segment for packages. */
  predicate IsAssigned(kind: Kind, name: string, code: string)
  {
    match kind
    case Package => Last(Split(name, '.')) <= code
    case Method => name <= code
    case Code => name <= code
  }

  /** The names declared under `kind`, in declaration order: the keys of `get_declared()`. */
  function DeclaredNames(d: seq<(string, Payload)>, kind: Kind): seq<string>
  {
    Keys(DeclaredOf(d, kind))
  }

  /** The live-name map after the inner loop of `scan` has gone through `names` for one token. */
  function ScanToken(m: seq<(string, Kind)>, kind: Kind, names: seq<string>, code: string): seq<(string, Kind)>
  {
    if names == [] then m
    else
      var before := ScanToken(m, kind, names[..|names| - 1], code);
      if IsAssigned(kind, Last(names), code) then Upsert(before, Last(names), kind) else before
  }

  /** The live-name map after `scan` has gone through `tokens`. */
  function ScanTokens(m: seq<(string, Kind)>, kind: Kind, names: seq<string>, tokens: seq<string>): seq<(string, Kind)>
  {
    if tokens == [] then m
    else ScanToken(ScanTokens(m, kind, names, tokens[..|tokens| - 1]), kind, names, Last(tokens))
  }

  /** One more name in the inner loop of `scan`. */
  lemma ScanTokenStep(m: seq<(string, Kind)>, kind: Kind, names: seq<string>, j: nat, code: string)
    requires j < |names|
    ensures ScanToken(m, kind, names[..j + 1], code)
      == var before := ScanToken(m, kind, names[..j], code);
         if IsAssigned(kind, names[j], code) then Upsert(before, names[j], kind) else before
  {
    assert names[..j + 1][..j] == names[..j];
  }

  /** One more token in the outer loop of `scan`. */
  lemma ScanTokensStep(m: seq<(string, Kind)>, kind: Kind, names: seq<string>, tokens: seq<string>, i: nat)
    requires i < |tokens|
    ensures ScanTokens(m, kind, names, tokens[..i + 1]) == ScanToken(ScanTokens(m, kind, names, tokens[..i]), kind, names, tokens[i])
  {
    assert tokens[..i + 1][..i] == tokens[..i];
  }

  /** Some token of `tokens` marks `name` live for `kind`. */
  predicate Mentioned(kind: Kind, name: string, tokens: seq<string>)
  {
    exists t :: t in tokens && IsAssigned(kind, name, t)
  }

  /** One token: the names it marks get `kind`; every other entry keeps its value. */
  lemma {:induction false} ScanTokenLookup(m: seq<(string, Kind)>, kind: Kind, names: seq<string>, code: string, n: string)
    ensures Lookup(ScanToken(m, kind, names, code), n)
      == if n in names && IsAssigned(kind, n, code) then Some(kind) else Lookup(m, n)
  {
    if names != [] {
      var init := names[..|names| - 1];
      assert n in names <==> n in init || n == Last(names) by {
        assert names == init + [Last(names)];
      }
      ScanTokenLookup(m, kind, init, code, n);
      UpsertLookup(ScanToken(m, kind, init, code), Last(names), kind, n);
    }
  }

  /**
   * `scan` marks a name live exactly when it is declared under the handler's
   * kind and some token starts with it; every other entry keeps its value.
   */
  lemma {:induction false} ScanTokensLookup(m: seq<(string, Kind)>, kind: Kind, names: seq<string>, tokens: seq<string>, n: string)
    ensures Lookup(ScanTokens(m, kind, names, tokens), n)
      == if n in names && Mentioned(kind, n, tokens) then Some(kind) else Lookup(m, n)
  {
    if tokens != [] {
      var init := tokens[..|tokens| - 1];
      assert Mentioned(kind, n, tokens) <==> Mentioned(kind, n, init) || IsAssigned(kind, n, Last(tokens)) by {
        assert tokens == init + [Last(tokens)];
      }
      ScanTokensLookup(m, kind, names, init, n);
      ScanTokenLookup(ScanTokens(m, kind, names, init), kind, names, Last(tokens), n);
    }
  }

  /** Scanning keeps the live names distinct. */
  lemma {:induction false} ScanTokenUnique(m: seq<(string, Kind)>, kind: Kind, names: seq<string>, code: string)
    requires UniqueKeys(m)
    ensures UniqueKeys(ScanToken(m, kind, names, code))
  {
    if names != [] {
      ScanTokenUnique(m, kind, names[..|names| - 1], code);
      UpsertUnique(ScanToken(m, kind, names[..|names| - 1], code), Last(names), kind);
    }
  }

  lemma {:induction false} ScanTokensUnique(m: seq<(string, Kind)>, kind: Kind, names: seq<string>, tokens: seq<string>)
    requires UniqueKeys(m)
    ensures UniqueKeys(ScanTokens(m, kind, names, tokens))
  {
    if tokens != [] {
      ScanTokensUnique(m, kind, names, tokens[..|tokens| - 1]);
      ScanTokenUnique(ScanTokens(m, kind, names, tokens[..|tokens| - 1]), kind, names, Last(tokens));
    }
  }

  /** Scanning two stretches of tokens is scanning the first, then the second. */
  lemma {:induction false} ScanTokensAppend(m: seq<(string, Kind)>, kind: Kind, names: seq<string>, a: seq<string>, b: seq<string>)
    ensures ScanTokens(m, kind, names, a + b) == ScanTokens(ScanTokens(m, kind, names, a), kind, names, b)
  {
    if b == [] {
      assert a + b == a;
    } else {
      ScanTokensAppend(m, kind, names, a, b[..|b| - 1]);
      assert (a + b)[..|a + b| - 1] == a + b[..|b| - 1];
    }
  }

  /** The tokens of several blocks, in order. */
  function BlocksTokens(blocks: seq<Block>): seq<string>
  {
    if blocks == [] then [] else BlocksTokens(blocks[..|blocks| - 1]) + ParseToCodes(Last(blocks))
  }

  /** A token of the blocks is a token of one of them. */
  lemma {:induction false} BlocksTokensMembers(blocks: seq<Block>, t: string)
    ensures t in BlocksTokens(blocks) <==> exists i :: 0 <= i < |blocks| && t in ParseToCodes(blocks[i])
  {
    if blocks != [] {
      var init := blocks[..|blocks| - 1];
      BlocksTokensMembers(init, t);
      if t in ParseToCodes(Last(blocks)) {
        assert t in ParseToCodes(blocks[|blocks| - 1]);
      }
      if exists i :: 0 <= i < |blocks| && t in ParseToCodes(blocks[i]) {
        var i :| 0 <= i < |blocks| && t in ParseToCodes(blocks[i]);
        if i < |init| {
          assert blocks[i] == init[i];
        }
      }
    }
  }

  /**
   * `Handler.scan(block)`: for every token of the block, every name declared
   * under `kind` whose `is_assigned` holds is added to the live names with `kind`.
   */
  method Scan(reg: AssignmentManager, kind: Kind, block: Block)
    requires reg.Valid()
    modifies reg
    ensures reg.Valid() && reg.declaredParams == old(reg.declaredParams)
    ensures reg.assignedParams
      == ScanTokens(old(reg.assignedParams), kind, DeclaredNames(old(reg.declaredParams), kind), ParseToCodes(block))
  {
    var tokens := ParseToCodes(block);
    ghost var names := DeclaredNames(reg.declaredParams, kind);
    var i := 0;
    while i < |tokens|
      invariant 0 <= i <= |tokens|
      invariant reg.Valid() && reg.declaredParams == old(reg.declaredParams)
      invariant reg.assignedParams == ScanTokens(old(reg.assignedParams), kind, names, tokens[..i])
    {
      ScanTokensStep(old(reg.assignedParams), kind, names, tokens, i);
      ScanCode(reg, kind, tokens[i]);
      i := i + 1;
    }
    assert tokens[..i] == tokens;
  }

  /** The inner loop of `scan`: one token against every name declared under `kind`. */
  method ScanCode(reg: AssignmentManager, kind: Kind, code: string)
    requires reg.Valid()
    modifies reg
    ensures reg.Valid() && reg.declaredParams == old(reg.declaredParams)
    ensures reg.assignedParams == ScanToken(old(reg.assignedParams), kind, DeclaredNames(old(reg.declaredParams), kind), code)
  {
    var decls := reg.GetDeclared(kind);
    ghost var names := Keys(decls);
    var j := 0;
    while j < |decls|
      invariant 0 <= j <= |decls|
      invariant reg.Valid() && reg.declaredParams == old(reg.declaredParams)
      invariant reg.assignedParams == ScanToken(old(reg.assignedParams), kind, names[..j], code)
    {
      ScanTokenStep(old(reg.assignedParams), kind, names, j, code);
      Mark(reg, kind, decls[j].0, code);
      j := j + 1;
    }
    assert names[..j] == names;
  }

  /** The body of the inner loop of `scan`: `add_assigned(name, kind)` when `is_assigned(name, code)` holds. */
  method Mark(reg: AssignmentManager, kind: Kind, name: string, code: string)
    requires reg.Valid()
    modifies reg
    ensures reg.Valid() && reg.declaredParams == old(reg.declaredParams)
    ensures reg.assignedParams == if IsAssigned(kind, name, code) then Upsert(old(reg.assignedParams), name, kind) else old(reg.assignedParams)
  {
    if IsAssigned(kind, name, code) {
      reg.AddAssigned(name, kind);
    }
  }

  /** `Handler.scan_used(blocks)`: `scan` on each block in turn. */
  method ScanUsed(reg: AssignmentManager, kind: Kind, blocks: seq<Block>)
    requires reg.Valid()
    modifies reg
    ensures reg.Valid() && reg.declaredParams == old(reg.declaredParams)
    ensures reg.assignedParams
      == ScanTokens(old(reg.assignedParams), kind, DeclaredNames(old(reg.declaredParams), kind), BlocksTokens(blocks))
  {
    ghost var names := DeclaredNames(reg.declaredParams, kind);
    var i := 0;
    while i < |blocks|
      invariant 0 <= i <= |blocks|
      invariant reg.Valid() && reg.declaredParams == old(reg.declaredParams)
      invariant reg.assignedParams == ScanTokens(old(reg.assignedParams), kind, names, BlocksTokens(blocks[..i]))
    {
      assert blocks[..i + 1][..i] == blocks[..i];
      ScanTokensAppend(old(reg.assignedParams), kind, names, BlocksTokens(blocks[..i]), ParseToCodes(blocks[i]));
      Scan(reg, kind, blocks[i]);
      i := i + 1;
    }
    assert blocks[..i] == blocks;
  }

  // ----- filling the template -----

  /** The placeholders of the Go template: `IMPORT_TEMPLATE`, `FUNC_TEMPLATE` and `CODE_TEMPLATE`. */
  const ImportArea: string := "{%import_area%}"
  const FuncArea: string := "{%func_area%}"
  const CodeArea: string := "{%code_area%}"

  // ----- PackageHandler -----

  /** A package path is matched by its last dot-separated segment: `fmt` by `fmt.Println(...)`, `com.yyx.console` by `console.Find()`. */
  lemma PackageMatchedBySegment(prefix: string, segment: string, rest: string)
    requires '.' !in segment
    ensures IsAssigned(Package, segment, segment + rest)
    ensures IsAssigned(Package, prefix + ['.'] + segment, segment + rest)
  {
    SplitNone(segment, '.');
    SplitConcat(prefix, segment, '.');
  }

  /** `package.strip('"')`. */
  function Unquote(package: string): string
  {
    Strip(package, {'"'})
  }

  /** A package written in double quotes loses them. */
  lemma UnquoteQuoted(p: string)
    requires p != [] && p[0] != '"' && p[|p| - 1] != '"'
    ensures Unquote(['"'] + p + ['"']) == p
  {
    StripWrapped('"', p, {'"'});
  }

  /** `_format(package)`: the package in double quotes after one indentation unit. */
  function ImportLine(package: string): string
  {
    StandardSpace + ['"'] + package + ['"']
  }

  function ImportLines(names: seq<string>): (r: seq<string>)
    ensures |r| == |names| && forall i :: 0 <= i < |names| ==> r[i] == ImportLine(names[i])
  {
    seq(|names|, i requires 0 <= i < |names| => ImportLine(names[i]))
  }

  /** The live names, whatever handler found them, add up to all the entries. */
  lemma {:induction false} NamesOfCount(m: seq<(string, Kind)>)
    ensures |NamesOf(m, Package)| + |NamesOf(m, Method)| + |NamesOf(m, Code)| == |m|
  {
    if m != [] {
      NamesOfCount(m[1..]);
    }
  }

  /** The import area for the live map `m`: one import line per live package. */
  function ImportText(m: seq<(string, Kind)>): string
  {
    Join(ImportLines(NamesOf(m, Package)), "\n")
  }

  /** The function area for declarations `d` and live map `m`: the live methods, separated by an empty line. */
  function MethodsText(d: seq<(string, Payload)>, m: seq<(string, Kind)>): string
  {
    var ms := LiveMethods(DeclaredOf(d, Method), NamesOf(m, Method));
    Join(seq(|ms|, i requires 0 <= i < |ms| => AssembleMethod(ms[i])), "\n\n")
  }

  /** `PackageHandler`: declares packages and lists the live ones in the import area. */
  class PackageHandler {
    const reg: AssignmentManager

    /** The handler starts with `fmt` declared. */
    constructor(reg: AssignmentManager)
      requires reg.Valid()
      modifies reg
      ensures this.reg == reg && reg.Valid()
      ensures reg.declaredParams == Upsert(old(reg.declaredParams), "fmt", PackageName("fmt"))
      ensures reg.assignedParams == old(reg.assignedParams)
    {
      this.reg := reg;
      new;
      // `add('fmt')`: the name has no quote to strip
      reg.AddDeclared("fmt", PackageName("fmt"));
    }

    /** `add(package)`: declares the package path without its double quotes. */
    method Add(package: string)
      requires reg.Valid()
      modifies reg
      ensures reg.Valid()
      ensures reg.declaredParams == Upsert(old(reg.declaredParams), Unquote(package), PackageName(Unquote(package)))
      ensures reg.assignedParams == old(reg.assignedParams)
    {
      var p := Unquote(package);
      reg.AddDeclared(p, PackageName(p));
    }

    /** `used_package_length`: the number of live names of every kind, not only packages. */
    function UsedPackageLength(): (n: nat)
      reads this, reg
      ensures n == |NamesOf(reg.assignedParams, Package)| + |NamesOf(reg.assignedParams, Method)| + |NamesOf(reg.assignedParams, Code)|
    {
      NamesOfCount(reg.assignedParams);
      reg.Length()
    }

    /** `parse_codes`: one import line per live package, in the order they became live. */
    function ParseCodes(): string
      reads this, reg
    {
      ImportText(reg.assignedParams)
    }

    /** `inflate(template)`: the import area replaced by the import lines. */
    function Inflate(template: string): string
      reads this, reg
    {
      Replace(template, ImportArea, ParseCodes())
    }
  }

  /** The import area reads back, line by line, as one quoted live package per line. */
  lemma PackageParseCodesLines(h: PackageHandler)
    requires NamesOf(h.reg.assignedParams, Package) != []
    requires forall n :: n in NamesOf(h.reg.assignedParams, Package) ==> '\n' !in n
    ensures Split(h.ParseCodes(), '\n') == ImportLines(NamesOf(h.reg.assignedParams, Package))
  {
    var names := NamesOf(h.reg.assignedParams, Package);
    forall p | p in ImportLines(names) ensures '\n' !in p {
      var i :| 0 <= i < |names| && ImportLines(names)[i] == p;
      assert names[i] in names;
    }
    SplitOfJoin(ImportLines(names), '\n');
  }

  // ----- FunctionHandler -----

  /** `func (\w+)\(` matches at the start of `s`. */
  predicate MethodNameAt(s: string)
  {
    "func " <= s && var w := Declared.WordRun(s[5..]); w != [] && 5 + |w| < |s| && s[5 + |w|] == '('
  }

  /** `METHOD_NAME_RE.search(line).group("method_name")`: the name in the leftmost match, if any. */
  function MethodName(line: string): (r: Option<string>)
    ensures r.Some? ==> IsWord(r.value) && HasInfix(line, "func " + r.value + "(")
  {
    if MethodNameAt(line) then
      var w := Declared.WordRun(line[5..]);
      assert line[..5 + |w| + 1] == "func " + w + "(";
      Some(w)
    else if line == [] then None
    else MethodName(line[1..])
  }

  /** A `func` line names the method declared right after the keyword. */
  lemma MethodNameOfFunc(w: string, rest: string)
    requires IsWord(w)
    ensures MethodName("func " + w + "(" + rest) == Some(w)
  {
    var line := "func " + w + "(" + rest;
    assert line[5..] == w + ("(" + rest);
    Declared.WordRunOfWord(w, "(" + rest);
  }

  /** `s` starts with `func v(` for the word `v`. */
  predicate FuncAt(s: string, v: string)
  {
    IsWord(v) && "func " <= s && v + "(" <= s[5..]
  }

  /** The pattern matches at the start of `s` exactly when `s` starts with `func v(`, and then it captures `v`. */
  lemma {:induction false} MethodNameAtFunc(s: string, v: string)
    requires FuncAt(s, v)
    ensures MethodNameAt(s) && Declared.WordRun(s[5..]) == v
  {
    assert s[5..][|v|] == '(';
    Declared.WordRunPrefix(v, s[5..]);
  }

  /** A line holding `func v(` somewhere yields a name. */
  lemma {:induction false} MethodNameFound(line: string, i: nat, v: string)
    requires i <= |line| && FuncAt(line[i..], v)
    ensures MethodName(line).Some?
  {
    if i == 0 {
      assert line[0..] == line;
      MethodNameAtFunc(line, v);
    } else if !MethodNameAt(line) {
      assert line[1..][i - 1..] == line[i..];
      MethodNameFound(line[1..], i - 1, v);
    }
  }

  /** The name is that of the leftmost `func v(`, as `re.search` finds the leftmost match. */
  lemma {:induction false} MethodNameLeftmost(line: string, i: nat, v: string)
    requires i <= |line| && FuncAt(line[i..], v)
    requires forall j, u :: 0 <= j < i ==> !FuncAt(line[j..], u)
    ensures MethodName(line) == Some(v)
  {
    if i == 0 {
      assert line[0..] == line;
      MethodNameAtFunc(line, v);
    } else {
      forall u
        ensures !FuncAt(line, u)
      {
        assert line[0..] == line;
      }
      NoFuncAt(line);
      assert line[1..][i - 1..] == line[i..];
      forall j, u | 0 <= j < i - 1
        ensures !FuncAt(line[1..][j..], u)
      {
        assert line[1..][j..] == line[j + 1..];
      }
      MethodNameLeftmost(line[1..], i - 1, v);
    }
  }

  /** Without `func v(` at its start, the pattern does not match there. */
  lemma NoFuncAt(s: string)
    requires forall u :: !FuncAt(s, u)
    ensures !MethodNameAt(s)
  {
    if MethodNameAt(s) {
      assert FuncAt(s, Declared.WordRun(s[5..]));
    }
  }

  /** The blocks of the declarations of `names`, in that order: `KeyError` for a name with none. */
  function LookupMethods(decls: seq<(string, Payload)>, names: seq<string>): (r: Result<seq<Block>>)
    requires forall e :: e in decls ==> e.1.MethodBlock?
    ensures r.Err? <==> exists n :: n in names && n !in Keys(decls)
    ensures r.Err? ==> r.error == KeyError
  {
    if names == [] then Ok([])
    else
      var found: Option<Payload> := Lookup(decls, names[0]);
      assert names[0] in names;
      assert forall n :: n in names[1..] ==> n in names;
      if found.None? then Err(KeyError)
      else
        match LookupMethods(decls, names[1..])
        case Ok(bs) =>
          assert (names[0], found.value) in decls;
          assert forall n :: n in names ==> n == names[0] || n in names[1..];
          Ok([found.value.body] + bs)
        case Err(e) => Err(e)
  }

  /** Each block found is the one declared under the name at the same position. */
  lemma {:induction false} LookupMethodsBlocks(decls: seq<(string, Payload)>, names: seq<string>)
    requires forall e :: e in decls ==> e.1.MethodBlock?
    requires LookupMethods(decls, names).Ok?
    ensures var bs := LookupMethods(decls, names).value;
      |bs| == |names| && forall i :: 0 <= i < |names| ==> Lookup(decls, names[i]) == Some(MethodBlock(bs[i]))
  {
    if names != [] {
      assert forall i :: 1 <= i < |names| ==> names[i] == names[1..][i - 1];
      LookupMethodsBlocks(decls, names[1..]);
      var found := Lookup(decls, names[0]);
      assert (names[0], found.value) in decls;
    }
  }

  /** The blocks of the declarations whose name is live, in declaration order. */
  function LiveMethods(decls: seq<(string, Payload)>, live: seq<string>): (r: seq<Block>)
  {
    if decls == [] then []
    else
      (if decls[0].0 in live && decls[0].1.MethodBlock? then [decls[0].1.body] else [])
      + LiveMethods(decls[1..], live)
  }

  /** A method is assembled exactly when it is declared under a live name. */
  lemma {:induction false} LiveMethodsMembers(decls: seq<(string, Payload)>, live: seq<string>, b: Block)
    ensures b in LiveMethods(decls, live) <==> exists n :: n in live && (n, MethodBlock(b)) in decls
  {
    if decls != [] {
      LiveMethodsMembers(decls[1..], live, b);
      if exists n :: n in live && (n, MethodBlock(b)) in decls[1..] {
        var n :| n in live && (n, MethodBlock(b)) in decls[1..];
        assert (n, MethodBlock(b)) in decls;
      }
      if exists n :: n in live && (n, MethodBlock(b)) in decls {
        var n :| n in live && (n, MethodBlock(b)) in decls;
        if (n, MethodBlock(b)) != decls[0] {
          assert (n, MethodBlock(b)) in decls[1..];
        }
      }
    }
  }

  /** `_assemble_method`: the method's lines, not indented, one per line. */
  function AssembleMethod(m: Block): string
  {
    Join(Deflated(m, 0), "\n")
  }

  /** `FunctionHandler`: declares methods and writes the live ones into the function area. */
  class FunctionHandler {
    const reg: AssignmentManager

    constructor(reg: AssignmentManager)
      ensures this.reg == reg
    {
      this.reg := reg;
    }

    /**
     * `add(method)`: declares the block under the name the `func` line gives;
     * `AttributeError` (`None.group`) when the opener names no method.
     */
    method Add(m: Block) returns (r: Result<()>)
      requires reg.Valid()
      modifies reg
      ensures reg.Valid() && reg.assignedParams == old(reg.assignedParams)
      ensures r.Err? <==> MethodName(m.opener).None?
      ensures r.Err? ==> r.error == AttributeError && reg.declaredParams == old(reg.declaredParams)
      ensures r.Ok? ==> reg.declaredParams == Upsert(old(reg.declaredParams), MethodName(m.opener).value, MethodBlock(m))
    {
      var name := MethodName(m.opener);
      if name.None? {
        return Err(AttributeError);
      }
      reg.AddDeclared(name.value, MethodBlock(m));
      r := Ok(());
    }

    /** `methods`: the declared block of every live method name, in liveness order. */
    function Methods(): Result<seq<Block>>
      reads this, reg
    {
      LookupMethods(DeclaredOf(reg.declaredParams, Method), NamesOf(reg.assignedParams, Method))
    }

    /** `parse_codes`: the live methods in declaration order, separated by an empty line. */
    function ParseCodes(): string
      reads this, reg
    {
      MethodsText(reg.declaredParams, reg.assignedParams)
    }

    /** `inflate(template)`: the function area replaced by the live methods. */
    function Inflate(template: string): string
      reads this, reg
    {
      Replace(template, FuncArea, ParseCodes())
    }
  }
}
