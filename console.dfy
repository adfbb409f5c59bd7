/**
 * `Console` of gonsole/console.py: one turn of the read loop. A line is routed
 * by its first characters; imports and methods go to their handlers, any
 * other statement to the code handler, after which the live names are
 * computed, the template is filled and the program is compiled. The compiler
 * is reduced to whether it wrote to stderr; file writes, the playground post
 * and the printed messages are not modelled.
 */
module Console {
  import opened Wrappers
  import opened Text
  import opened Blocks
  import opened Registry
  import opened Handlers
  import opened CodeHandling
  import opened Generator

  // ----- routing -----

  /** What `parse_input` does with a line. */
  datatype Route = Empty | Direct | Exit | Playground | Export | Import | Func | Statement

  /** `DIRECT_COMMAND_RE.match(text)`: the line starts with a digit or a quote. */
  predicate DirectStart(text: string)
  {
    text != [] && (IsDigit(text[0]) || text[0] == '"' || text[0] == '\'')
  }

  /** The branch of `parse_input` a line takes; the tests are made in this order. */
  function RouteOf(text: string): (r: Route)
    ensures r == Empty <==> text == []
    ensures r == Direct <==> DirectStart(text)
    ensures r == Exit <==> text == "exit"
    ensures r == Playground <==> text == "playground"
    ensures r == Export <==> !DirectStart(text) && "export " <= text
    ensures r == Import <==> !DirectStart(text) && "import " <= text
    ensures r == Func <==> !DirectStart(text) && "func " <= text
    ensures r == Statement <==> (text != [] && !DirectStart(text) && text != "exit" && text != "playground"
      && !("export " <= text) && !("import " <= text) && !("func " <= text))
  {
    if text == [] then Empty
    else if DirectStart(text) then Direct
    else if text == "exit" then Exit
    else if text == "playground" then Playground
    else if "export " <= text then Export
    else if "import " <= text then Import
    else if "func " <= text then Func
    else Statement
  }

  // ----- imports -----

  /** `code.split(" ", 1)[-1].strip(' ,')`: the package named after the first space. */
  function ImportName(code: string): string
  {
    var before := BeforeFirst(code, " ");
    var after := if HasInfix(code, " ") then code[|before| + 1..] else code;
    Strip(after, {' ', ','})
  }

  /** After the `import` keyword, the name is the rest of the line without surrounding spaces and commas. */
  lemma ImportNameAfterKeyword(x: string)
    ensures ImportName("import " + x) == Strip(x, {' ', ','})
  {
    assert "import " + x == "import" + [' '] + x;
    BeforeFirstAt("import", x, ' ');
    assert ("import " + x)[|"import"| + 1..] == x;
  }

  /** A quoted name has no spaces or commas to strip at its ends. */
  lemma QuotedKept(p: string)
    ensures Strip(['"'] + p + ['"'], {' ', ','}) == ['"'] + p + ['"']
  {
    var q := ['"'] + p + ['"'];
    assert q[0] == '"' && q[|q| - 1] == '"';
    StripKeeps(q, {' ', ','});
  }

  /** The declarations after `_cache_import(line)`: the package named on the line, unquoted. */
  function Imported(d: seq<(string, Payload)>, line: string): seq<(string, Payload)>
  {
    Upsert(d, Unquote(ImportName(line)), PackageName(Unquote(ImportName(line))))
  }

  /** `import "p"` declares the package `p`: the quotes go when the package handler adds it. */
  lemma ImportQuoted(p: string)
    requires p != [] && p[0] != '"' && p[|p| - 1] != '"'
    ensures Unquote(ImportName("import " + (['"'] + p + ['"']))) == p
  {
    var q := ['"'] + p + ['"'];
    QuotedKept(p);
    ImportNameAfterKeyword(q);
    UnquoteQuoted(p);
  }

  // ----- filling the template -----

  /** Every placeholder opens with these two characters. */
  const Opener: string := "{%"

  predicate IsPlaceholder(s: string)
  {
    s == ImportArea || s == FuncArea || s == CodeArea
  }

  /** A region of a template: a placeholder still to be filled, or text that holds no placeholder. */
  predicate Region(s: string)
  {
    IsPlaceholder(s) || MarkerFree(s, Opener)
  }

  /** A region after `pat` was replaced by `rep`. */
  function Filled(s: string, pat: string, rep: string): string
  {
    if s == pat then rep else s
  }

  /** A placeholder opens with the marker, holds it nowhere else, and is told apart from the others by its third character. */
  lemma PlaceholderShape(p: string)
    requires IsPlaceholder(p)
    ensures |p| > 2 && Opener <= p && MarkerFree(p[1..], Opener)
    ensures p[2] == (if p == ImportArea then 'i' else if p == FuncArea then 'f' else 'c')
  {
    assert forall i :: 1 <= i < |p| ==> p[i] != '{';
    assert '{' !in p[1..];
    MarkerFreeWithout(p[1..], Opener);
  }

  /** Replacing a placeholder fills a region that comes first and carries on after it. */
  lemma ReplaceRegion(s: string, b: string, pat: string, rep: string)
    requires IsPlaceholder(pat) && Region(s)
    ensures Replace(s + b, pat, rep) == Filled(s, pat, rep) + Replace(b, pat, rep)
  {
    PlaceholderShape(pat);
    if s == pat {
      ReplaceHit(b, pat, rep);
    } else if IsPlaceholder(s) {
      PlaceholderShape(s);
      ReplaceSkip(s, b, pat, rep, Opener, 2);
    } else {
      ReplaceCopies(s, b, pat, rep, Opener);
    }
  }

  /** A template with three regions, in the order imports, methods, code, between fixed text. */
  function Layout(a: string, b: string, c: string, d: string, x: string, y: string, z: string): string
  {
    a + (x + (b + (y + (c + (z + d)))))
  }

  /** Replacing a placeholder in a laid-out template fills exactly the regions that are that placeholder. */
  lemma ReplaceLayout(a: string, b: string, c: string, d: string, x: string, y: string, z: string, pat: string, rep: string)
    requires IsPlaceholder(pat)
    requires MarkerFree(a, Opener) && MarkerFree(b, Opener) && MarkerFree(c, Opener) && MarkerFree(d, Opener)
    requires Region(x) && Region(y) && Region(z)
    ensures Replace(Layout(a, b, c, d, x, y, z), pat, rep)
      == Layout(a, b, c, d, Filled(x, pat, rep), Filled(y, pat, rep), Filled(z, pat, rep))
  {
    PlaceholderShape(pat);
    var t5 := z + d;
    var t4 := c + t5;
    var t3 := y + t4;
    var t2 := b + t3;
    var t1 := x + t2;
    ReplaceMarkerFree(d, pat, rep, Opener);
    ReplaceRegion(z, d, pat, rep);
    ReplaceRegion(c, t5, pat, rep);
    ReplaceRegion(y, t4, pat, rep);
    ReplaceRegion(b, t3, pat, rep);
    ReplaceRegion(x, t2, pat, rep);
    ReplaceRegion(a, t1, pat, rep);
  }

  /** `_inflate` on the three rendered areas: the code area first, then the methods, then the imports. */
  function FillTemplate(template: string, code: string, methods: string, imports: string): string
  {
    Replace(Replace(Replace(template, CodeArea, code), FuncArea, methods), ImportArea, imports)
  }

  /** The three placeholders are different texts. */
  lemma PlaceholdersDistinct()
    ensures ImportArea != FuncArea && ImportArea != CodeArea && FuncArea != CodeArea
  {
    PlaceholderShape(ImportArea);
    PlaceholderShape(FuncArea);
    PlaceholderShape(CodeArea);
  }

  /** Text without placeholder text is no placeholder, so a replacement leaves it as it is. */
  lemma FilledFree(s: string, pat: string, rep: string)
    requires IsPlaceholder(pat) && MarkerFree(s, Opener)
    ensures Filled(s, pat, rep) == s
  {
    PlaceholderShape(pat);
    assert pat[0] == Opener[0] && pat[1] == Opener[1];
    assert !MarkerFree(pat, Opener);
  }

  /** Filling one placeholder leaves another one where it is. */
  lemma FilledOther(s: string, pat: string, rep: string)
    requires IsPlaceholder(pat) && IsPlaceholder(s) && s != pat
    ensures Filled(s, pat, rep) == s
  {
  }

  /** With no placeholder text in the areas, each placeholder of the template receives its own area. */
  lemma FillLayout(a: string, b: string, c: string, d: string, code: string, methods: string, imports: string)
    requires MarkerFree(a, Opener) && MarkerFree(b, Opener) && MarkerFree(c, Opener) && MarkerFree(d, Opener)
    requires MarkerFree(code, Opener) && MarkerFree(methods, Opener) && MarkerFree(imports, Opener)
    ensures FillTemplate(Layout(a, b, c, d, ImportArea, FuncArea, CodeArea), code, methods, imports)
      == Layout(a, b, c, d, imports, methods, code)
  {
    PlaceholdersDistinct();
    var t0 := Layout(a, b, c, d, ImportArea, FuncArea, CodeArea);
    var t1 := Layout(a, b, c, d, ImportArea, FuncArea, code);
    var t2 := Layout(a, b, c, d, ImportArea, methods, code);
    FilledOther(ImportArea, CodeArea, code);
    FilledOther(FuncArea, CodeArea, code);
    ReplaceLayout(a, b, c, d, ImportArea, FuncArea, CodeArea, CodeArea, code);
    assert Replace(t0, CodeArea, code) == t1;
    FilledOther(ImportArea, FuncArea, methods);
    FilledFree(code, FuncArea, methods);
    ReplaceLayout(a, b, c, d, ImportArea, FuncArea, code, FuncArea, methods);
    assert Replace(t1, FuncArea, methods) == t2;
    FilledFree(methods, ImportArea, imports);
    FilledFree(code, ImportArea, imports);
    ReplaceLayout(a, b, c, d, ImportArea, methods, code, ImportArea, imports);
  }

  /** A region on its own. */
  lemma ReplaceWhole(s: string, pat: string, rep: string)
    requires IsPlaceholder(pat) && Region(s)
    ensures Replace(s, pat, rep) == Filled(s, pat, rep)
  {
    ReplaceRegion(s, [], pat, rep);
    assert s + [] == s;
    PlaceholderShape(pat);
    assert Filled(s, pat, rep) + [] == Filled(s, pat, rep);
  }

  /**
   * The order shows when an area spells a placeholder: code that spells the
   * function placeholder receives the methods, while methods that spell the
   * code placeholder keep it.
   */
  lemma FillOrder(text: string, imports: string)
    requires MarkerFree(text, Opener) && MarkerFree(imports, Opener)
    ensures FillTemplate(CodeArea, FuncArea, text, imports) == text
    ensures FillTemplate(FuncArea, text, CodeArea, imports) == CodeArea
  {
    PlaceholdersDistinct();
    ReplaceWhole(CodeArea, CodeArea, FuncArea);
    ReplaceWhole(FuncArea, FuncArea, text);
    FilledFree(text, ImportArea, imports);
    ReplaceWhole(text, ImportArea, imports);
    assert FillTemplate(CodeArea, FuncArea, text, imports) == text;
    FilledOther(FuncArea, CodeArea, text);
    ReplaceWhole(FuncArea, CodeArea, text);
    ReplaceWhole(FuncArea, FuncArea, CodeArea);
    FilledOther(CodeArea, ImportArea, imports);
    ReplaceWhole(CodeArea, ImportArea, imports);
  }

  /** `direct_command`: the template with `"fmt"` imported, no methods and the print statement as code. */
  function DirectCommand(template: string, printed: string): string
  {
    Replace(Replace(Replace(template, ImportArea, "\"fmt\""), FuncArea, ""), CodeArea, printed)
  }

  /** A direct command fills the imports with `"fmt"`, the methods with nothing and the code with the print statement. */
  lemma DirectCommandLayout(a: string, b: string, c: string, d: string, printed: string)
    requires MarkerFree(a, Opener) && MarkerFree(b, Opener) && MarkerFree(c, Opener) && MarkerFree(d, Opener)
    requires MarkerFree(printed, Opener)
    ensures DirectCommand(Layout(a, b, c, d, ImportArea, FuncArea, CodeArea), printed)
      == Layout(a, b, c, d, "\"fmt\"", [], printed)
  {
    assert MarkerFree("\"fmt\"", Opener);
    ReplaceLayout(a, b, c, d, ImportArea, FuncArea, CodeArea, ImportArea, "\"fmt\"");
    ReplaceLayout(a, b, c, d, "\"fmt\"", FuncArea, CodeArea, FuncArea, []);
    ReplaceLayout(a, b, c, d, "\"fmt\"", [], CodeArea, CodeArea, printed);
  }

  // ----- the console -----

  /** How a turn ends. */
  datatype Outcome =
    | Continue(next: nat)   // the loop reads the next line; `next` is the first unread continuation input
    | Quit                  // `exit`: `sys.exit(0)`
    | Raised(error: PyError)  // an exception that ends the read loop
    | Waiting               // the continuation inputs ran out, or an `import (` batch never ends

  /** The blocks of the fragments to emit: `CodeHandler.blocks`. */
  function EntryBlocks(es: seq<Entry>): (r: seq<Block>)
    ensures |r| == |es| && forall i :: 0 <= i < |es| ==> r[i] == es[i].block
  {
    seq(|es|, i requires 0 <= i < |es| => es[i].block)
  }

  /** The live names after `prepare` makes live the method names the fragments `es` mention. */
  function MethodScan(m: seq<(string, Kind)>, d: seq<(string, Payload)>, es: seq<Entry>): seq<(string, Kind)>
  {
    ScanTokens(m, Method, DeclaredNames(d, Method), BlocksTokens(EntryBlocks(es)))
  }

  /** The methods `prepare` then assembles: `KeyError` when a live method name has no declaration. */
  function PreparedMethods(m: seq<(string, Kind)>, d: seq<(string, Payload)>, es: seq<Entry>): Result<seq<Block>>
  {
    LookupMethods(DeclaredOf(d, Method), NamesOf(MethodScan(m, d, es), Method))
  }

  /**
   * The live names `prepare` leaves: the method scan, then, when the methods
   * are assembled, the packages the fragments and those methods mention.
   */
  function PreparedLive(m: seq<(string, Kind)>, d: seq<(string, Payload)>, es: seq<Entry>): seq<(string, Kind)>
  {
    var methods := PreparedMethods(m, d, es);
    if methods.Err? then MethodScan(m, d, es)
    else ScanTokens(MethodScan(m, d, es), Package, DeclaredNames(d, Package), BlocksTokens(EntryBlocks(es) + methods.value))
  }

  /**
   * The program `_inflate` writes for the fragments `es`, the declarations
   * `d` and the live map `m`: the code area, then the live methods, then the
   * imports of the live packages.
   */
  function ProgramText(template: string, es: seq<Entry>, d: seq<(string, Payload)>, m: seq<(string, Kind)>): string
  {
    FillTemplate(template, CodeText(es), MethodsText(d, m), ImportText(m))
  }

  /** No declaration is forgotten: every declared name is still declared, perhaps with a new payload. */
  ghost predicate KeepsDeclarations(d0: seq<(string, Payload)>, d1: seq<(string, Payload)>)
  {
    forall n :: Lookup(d0, n).Some? ==> Lookup(d1, n).Some?
  }

  /** A declaration of `names` keeps every earlier one. */
  lemma UpsertAllKeeps(d: seq<(string, Payload)>, names: seq<string>, p: Payload)
    ensures KeepsDeclarations(d, UpsertAll(d, names, p))
  {
    forall n | Lookup(d, n).Some? ensures Lookup(UpsertAll(d, names, p), n).Some? {
      UpsertAllLookup(d, names, p, n);
    }
  }

  lemma UpsertKeeps(d: seq<(string, Payload)>, name: string, p: Payload)
    ensures KeepsDeclarations(d, Upsert(d, name, p))
  {
    forall n | Lookup(d, n).Some? ensures Lookup(Upsert(d, name, p), n).Some? {
      UpsertLookup(d, name, p, n);
    }
  }

  class Console {
    /** `GO_TEMPLATE`: the program with the three placeholders. */
    const template: string
    /** `PRINTLN.format`: the statement that prints a direct command's value. */
    const println: string -> string
    /** The registry every handler shares (`AssignmentManager.instance()`). */
    const reg: AssignmentManager
    const codes: CodeHandler
    const packages: PackageHandler
    const funcs: FunctionHandler

    ghost predicate Valid()
      reads this, reg, codes
    {
      codes.reg == reg && packages.reg == reg && funcs.reg == reg && codes.Valid()
    }

    /** `__init__`: the three handlers over one registry, with `fmt` declared by the package handler. */
    constructor(template: string, println: string -> string)
      ensures Valid() && fresh(reg) && fresh(codes)
      ensures this.template == template && this.println == println
      ensures reg.assignedParams == [] && reg.declaredParams == Upsert([], "fmt", PackageName("fmt"))
      ensures codes.history == [] && codes.pinned == None && codes.executeBlocks == []
    {
      var r := new AssignmentManager();
      var c := new CodeHandler(r);
      var p := new PackageHandler(r);
      var f := new FunctionHandler(r);
      this.template := template;
      this.println := println;
      this.reg := r;
      this.codes := c;
      this.packages := p;
      this.funcs := f;
    }

    /** `_inflate`: the code handler fills the template first, then the function handler, then the package handler. */
    function Inflate(): (r: string)
      reads this, reg, codes, packages, funcs, packages.reg, funcs.reg
      ensures r == FillTemplate(template, codes.ParseCodes(), funcs.ParseCodes(), packages.ParseCodes())
    {
      packages.Inflate(funcs.Inflate(codes.Inflate(template)))
    }

    /**
     * `prepare`: the method names mentioned by the fragments to emit become
     * live, then the packages mentioned by those fragments and by the live
     * methods. `KeyError` when a live method name is not declared as a method;
     * `NotDeclaredError` exactly when there are fragments to emit and no name
     * of any kind is live; otherwise the filled template.
     */
    method Prepare() returns (r: Result<string>)
      requires Valid()
      modifies reg
      ensures Valid() && reg.declaredParams == old(reg.declaredParams)
      ensures reg.assignedParams == PreparedLive(old(reg.assignedParams), reg.declaredParams, codes.executeBlocks)
      ensures r == Err(KeyError) <==> PreparedMethods(old(reg.assignedParams), reg.declaredParams, codes.executeBlocks).Err?
      ensures r == Err(NotDeclaredError) <==> codes.executeBlocks != [] && reg.assignedParams == []
      ensures r.Err? ==> r.error == KeyError || r.error == NotDeclaredError
      ensures r.Ok? ==> (r.value == Inflate()
        && r.value == ProgramText(template, codes.executeBlocks, reg.declaredParams, reg.assignedParams))
    {
      var blocks := EntryBlocks(codes.executeBlocks);
      ScanUsed(reg, Method, blocks);
      var methods := funcs.Methods();
      if methods.Err? {
        var n :| n in NamesOf(reg.assignedParams, Method) && n !in Keys(DeclaredOf(reg.declaredParams, Method));
        assert n in Keys(reg.assignedParams);
        return Err(KeyError);
      }
      ScanUsed(reg, Package, blocks + methods.value);
      if codes.executeBlocks != [] && reg.assignedParams == [] {
        return Err(NotDeclaredError);
      }
      r := Ok(Inflate());
    }

    /**
     * `execute` once the program is written: when the compiler wrote to
     * stderr, `_parse_output` rolls the code handler back (`IndexError` when
     * it has no fragment, and then the live names stay); then the live names
     * are forgotten. The package and function handlers are never rolled back.
     */
    method Execute(failed: bool) returns (r: Result<()>)
      requires Valid()
      modifies reg, codes
      ensures Valid() && reg.declaredParams == old(reg.declaredParams)
      ensures codes.pinned == old(codes.pinned) && codes.executeBlocks == old(codes.executeBlocks) && codes.nextId == old(codes.nextId)
      ensures !failed ==> r == Ok(()) && codes.history == old(codes.history) && reg.assignedParams == []
      ensures failed && old(codes.history) != [] ==> (r == Ok(()) && reg.assignedParams == []
        && codes.history == old(codes.history)[..|old(codes.history)| - 1])
      ensures failed && old(codes.history) == [] ==> (r == Err(IndexError) && codes.history == []
        && reg.assignedParams == old(reg.assignedParams))
    {
      if failed {
        r := codes.Rollback();
        if r.Err? {
          return;
        }
      }
      reg.Clear();
      r := Ok(());
    }

    /**
     * `cache_code`: the code handler is cleared, the statement is read to
     * its end and added. An interrupt raises `KeyboardInterruptInBlock`;
     * inputs that run out leave the turn waiting.
     */
    method CacheCode(code: string, input: seq<Input>, pos: nat) returns (out: Outcome)
      requires Valid() && pos <= |input|
      modifies reg, codes
      ensures Valid()
      ensures var g := Gen(code, input, pos);
        !g.Built? ==> (out == (if g.Interrupted? then Raised(KeyboardInterruptInBlock) else Waiting)
          && codes.history == old(codes.history) && codes.pinned == None && codes.executeBlocks == []
          && reg.assignedParams == old(reg.assignedParams) && reg.declaredParams == old(reg.declaredParams))
      ensures var g := Gen(code, input, pos);
        g.Built? ==> (codes.history == old(codes.history) + [Entry(old(codes.nextId), g.block)]
          && codes.pinned == Some(Entry(old(codes.nextId), g.block)) && codes.nextId == old(codes.nextId) + 1
          && (out.Continue? || out.Raised?) && (out.Continue? ==> out.next == g.next))
      ensures var g := Gen(code, input, pos);
        g.Built? && IsDeclared(g.block) != Ok(false) ==> codes.executeBlocks == [] && reg.assignedParams == old(reg.assignedParams)
      ensures var g := Gen(code, input, pos);
        g.Built? && IsDeclared(g.block) != Ok(false) ==> (out.Continue? <==> IsDeclared(g.block).Ok? && BlockNames(g.block).Ok?)
      ensures var g := Gen(code, input, pos);
        g.Built? && IsDeclared(g.block).Err? ==> out == Raised(IsDeclared(g.block).error) && reg.declaredParams == old(reg.declaredParams)
      ensures var g := Gen(code, input, pos);
        g.Built? && IsDeclared(g.block) == Ok(true) && BlockNames(g.block).Err? ==>
          out == Raised(BlockNames(g.block).error) && reg.declaredParams == old(reg.declaredParams)
      ensures var g := Gen(code, input, pos);
        g.Built? && IsDeclared(g.block) == Ok(true) && BlockNames(g.block).Ok? ==> (out == Continue(g.next)
          && reg.declaredParams == UpsertAll(old(reg.declaredParams), BlockNames(g.block).value, CodeEntry(Entry(old(codes.nextId), g.block))))
      ensures var g := Gen(code, input, pos);
        g.Built? && IsDeclared(g.block) == Ok(false) ==> reg.declaredParams == old(reg.declaredParams)
      ensures var g := Gen(code, input, pos);
        g.Built? && IsDeclared(g.block) == Ok(false) && out.Raised? ==>
          (out.error == KeyError || out.error == ValueError) && codes.executeBlocks == []
      ensures var g := Gen(code, input, pos);
        g.Built? && IsDeclared(g.block) == Ok(false) && out.Continue? ==> (Ok(codes.executeBlocks) == ExecuteBlocks(codes.history, codes.pinned, reg.assignedParams,
            DeclaredOf(reg.declaredParams, Code), codes.history))
      ensures var g := Gen(code, input, pos); var decls := DeclaredOf(old(reg.declaredParams), Code);
        g.Built? && IsDeclared(g.block) == Ok(false) ==>
          (out == Raised(KeyError) <==> exists n :: LiveCode(old(reg.assignedParams), n) && n !in Keys(decls))
      ensures var g := Gen(code, input, pos); var decls := DeclaredOf(reg.declaredParams, Code);
        g.Built? && IsDeclared(g.block) == Ok(false) && out != Raised(KeyError) ==> (Closed(reg.assignedParams, decls)
          && Covers(reg.assignedParams, decls, ParseToCodes(g.block))
          && KeepsLive(old(reg.assignedParams), reg.assignedParams)
          && GrowsWithin(old(reg.assignedParams), reg.assignedParams, decls)
          && (out.Continue? <==> ExecuteBlocks(codes.history, codes.pinned, reg.assignedParams, decls, codes.history).Ok?))
      ensures var g := Gen(code, input, pos);
        g.Built? && IsDeclared(g.block) == Ok(false) ==>
          Least(reg.assignedParams, old(reg.assignedParams), DeclaredOf(reg.declaredParams, Code), ParseToCodes(g.block))
      ensures KeepsDeclarations(old(reg.declaredParams), reg.declaredParams)
    {
      codes.Clear();
      var g := Generate(code, input, pos);
      match g
      case Interrupted =>
        out := Raised(KeyboardInterruptInBlock);
      case Exhausted =>
        out := Waiting;
      case Built(block, next) =>
        out := AddStatement(block, next);
    }

    /**
     * The end of `cache_code` once the statement is read: it joins the code
     * handler; an error of the handler is raised, otherwise the turn goes on
     * at `next`.
     */
    method AddStatement(block: Block, next: nat) returns (out: Outcome)
      requires Valid()
      modifies reg, codes
      ensures Valid()
      ensures codes.history == old(codes.history) + [Entry(old(codes.nextId), block)]
        && codes.pinned == Some(Entry(old(codes.nextId), block)) && codes.nextId == old(codes.nextId) + 1
      ensures (out.Continue? || out.Raised?) && (out.Continue? ==> out.next == next)
      ensures IsDeclared(block) != Ok(false) ==>
        codes.executeBlocks == old(codes.executeBlocks) && reg.assignedParams == old(reg.assignedParams)
      ensures IsDeclared(block) != Ok(false) ==> (out.Continue? <==> IsDeclared(block).Ok? && BlockNames(block).Ok?)
      ensures IsDeclared(block).Err? ==> out == Raised(IsDeclared(block).error) && reg.declaredParams == old(reg.declaredParams)
      ensures IsDeclared(block) == Ok(true) && BlockNames(block).Err? ==>
        out == Raised(BlockNames(block).error) && reg.declaredParams == old(reg.declaredParams)
      ensures IsDeclared(block) == Ok(true) && BlockNames(block).Ok? ==> (out == Continue(next)
        && reg.declaredParams == UpsertAll(old(reg.declaredParams), BlockNames(block).value, CodeEntry(Entry(old(codes.nextId), block))))
      ensures IsDeclared(block) == Ok(false) ==> reg.declaredParams == old(reg.declaredParams)
      ensures IsDeclared(block) == Ok(false) && out.Raised? ==>
        (out.error == KeyError || out.error == ValueError) && codes.executeBlocks == old(codes.executeBlocks)
      ensures IsDeclared(block) == Ok(false) && out.Continue? ==> (Ok(codes.executeBlocks) == ExecuteBlocks(codes.history, codes.pinned, reg.assignedParams,
          DeclaredOf(reg.declaredParams, Code), codes.history))
      ensures var decls := DeclaredOf(old(reg.declaredParams), Code);
        IsDeclared(block) == Ok(false) ==>
          (out == Raised(KeyError) <==> exists n :: LiveCode(old(reg.assignedParams), n) && n !in Keys(decls))
      ensures var decls := DeclaredOf(reg.declaredParams, Code);
        IsDeclared(block) == Ok(false) && out != Raised(KeyError) ==> (Closed(reg.assignedParams, decls)
          && Covers(reg.assignedParams, decls, ParseToCodes(block))
          && KeepsLive(old(reg.assignedParams), reg.assignedParams)
          && GrowsWithin(old(reg.assignedParams), reg.assignedParams, decls)
          && (out.Continue? <==> ExecuteBlocks(codes.history, codes.pinned, reg.assignedParams, decls, codes.history).Ok?))
      ensures IsDeclared(block) == Ok(false) ==>
        Least(reg.assignedParams, old(reg.assignedParams), DeclaredOf(reg.declaredParams, Code), ParseToCodes(block))
      ensures KeepsDeclarations(old(reg.declaredParams), reg.declaredParams)
    {
      var r := codes.Add(block);
      out := if r.Err? then Raised(r.error) else Continue(next);
      if IsDeclared(block) == Ok(true) && BlockNames(block).Ok? {
        UpsertAllKeeps(old(reg.declaredParams), BlockNames(block).value, CodeEntry(Entry(old(codes.nextId), block)));
      }
    }

    /**
     * `cache_packages`: an `import` line declares the package `_cache_import`
     * reads from it. A line ending in `(` reads one continuation line: `)`
     * ends the turn with nothing declared; an interrupt is not caught before
     * the read loop, which exits; any other line is imported over and over by
     * a loop that never reads again, so its package is declared and the turn
     * never ends.
     */
    method CachePackages(text: string, input: seq<Input>, pos: nat) returns (out: Outcome)
      requires Valid() && pos <= |input|
      modifies reg
      ensures Valid() && reg.assignedParams == old(reg.assignedParams)
      ensures !EndsWith(text, '(') ==> out == Continue(pos) && reg.declaredParams == Imported(old(reg.declaredParams), text)
      ensures EndsWith(text, '(') && pos == |input| ==> out == Waiting && reg.declaredParams == old(reg.declaredParams)
      ensures EndsWith(text, '(') && pos < |input| && input[pos] == Interrupt ==>
        out == Quit && reg.declaredParams == old(reg.declaredParams)
      ensures EndsWith(text, '(') && pos < |input| && input[pos] == Typed(")") ==>
        out == Continue(pos + 1) && reg.declaredParams == old(reg.declaredParams)
      ensures EndsWith(text, '(') && pos < |input| && input[pos].Typed? && input[pos].text != ")" ==>
        out == Waiting && reg.declaredParams == Imported(old(reg.declaredParams), input[pos].text)
      ensures KeepsDeclarations(old(reg.declaredParams), reg.declaredParams)
    {
      var line := text;
      if EndsWith(text, '(') {
        if pos == |input| {
          return Waiting;
        }
        match input[pos]
        case Interrupt =>
          return Quit;
        case Typed(t) =>
          if t == ")" {
            return Continue(pos + 1);
          }
          line := t;
      }
      packages.Add(ImportName(line));
      UpsertKeeps(old(reg.declaredParams), Unquote(ImportName(line)), PackageName(Unquote(ImportName(line))));
      out := if EndsWith(text, '(') then Waiting else Continue(pos);
    }

    /** `cache_func`: the method is read to its end and declared under the name its `func` line gives. */
    method CacheFunc(text: string, input: seq<Input>, pos: nat) returns (out: Outcome)
      requires Valid() && pos <= |input|
      modifies reg
      ensures Valid() && reg.assignedParams == old(reg.assignedParams)
      ensures var g := Gen(text, input, pos);
        !g.Built? ==> (out == (if g.Interrupted? then Raised(KeyboardInterruptInBlock) else Waiting)
          && reg.declaredParams == old(reg.declaredParams))
      ensures var g := Gen(text, input, pos);
        g.Built? && MethodName(g.block.opener).None? ==> out == Raised(AttributeError) && reg.declaredParams == old(reg.declaredParams)
      ensures var g := Gen(text, input, pos);
        g.Built? && MethodName(g.block.opener).Some? ==> (out == Continue(g.next)
          && reg.declaredParams == Upsert(old(reg.declaredParams), MethodName(g.block.opener).value, MethodBlock(g.block)))
      ensures KeepsDeclarations(old(reg.declaredParams), reg.declaredParams)
    {
      var g := Generate(text, input, pos);
      match g
      case Interrupted =>
        out := Raised(KeyboardInterruptInBlock);
      case Exhausted =>
        out := Waiting;
      case Built(block, next) =>
        var r := funcs.Add(block);
        out := if r.Err? then Raised(r.error) else Continue(next);
        if r.Ok? {
          UpsertKeeps(old(reg.declaredParams), MethodName(block.opener).value, MethodBlock(block));
        }
    }

    /**
     * `export` and `export_to_playground`: the program is prepared and handed
     * to a file or to the playground, which are not modelled; what `prepare`
     * raises ends the loop.
     */
    method ExportProgram(pos: nat) returns (out: Outcome)
      requires Valid()
      modifies reg
      ensures Valid() && reg.declaredParams == old(reg.declaredParams)
      ensures out == Continue(pos) || out == Raised(KeyError) || out == Raised(NotDeclaredError)
      ensures out == Raised(NotDeclaredError) <==> codes.executeBlocks != [] && reg.assignedParams == []
      ensures out == Raised(KeyError) <==> PreparedMethods(old(reg.assignedParams), reg.declaredParams, codes.executeBlocks).Err?
      ensures reg.assignedParams == PreparedLive(old(reg.assignedParams), reg.declaredParams, codes.executeBlocks)
    {
      var r := Prepare();
      out := if r.Err? then Raised(r.error) else Continue(pos);
    }

    /**
     * A direct command: the template holding only the print statement is
     * compiled, and `execute` runs as for any program, so a failure rolls
     * back the last code fragment.
     */
    method RunDirect(text: string, pos: nat, failed: bool) returns (out: Outcome)
      requires Valid()
      modifies reg, codes
      ensures Valid() && reg.declaredParams == old(reg.declaredParams)
      ensures codes.pinned == old(codes.pinned) && codes.executeBlocks == old(codes.executeBlocks) && codes.nextId == old(codes.nextId)
      ensures DirectCommand(template, println(text)) == [] ==> (out == Continue(pos)
        && codes.history == old(codes.history) && reg.assignedParams == old(reg.assignedParams))
      ensures DirectCommand(template, println(text)) != [] && !failed ==> (out == Continue(pos)
        && codes.history == old(codes.history) && reg.assignedParams == [])
      ensures DirectCommand(template, println(text)) != [] && failed && old(codes.history) != [] ==> (out == Continue(pos)
        && codes.history == old(codes.history)[..|old(codes.history)| - 1] && reg.assignedParams == [])
      ensures DirectCommand(template, println(text)) != [] && failed && old(codes.history) == [] ==> out == Raised(IndexError)
    {
      var content := DirectCommand(template, println(text));
      if content == [] {
        return Continue(pos);
      }
      var r := Execute(failed);
      out := if r.Err? then Raised(r.error) else Continue(pos);
    }

    /**
     * What follows `cache_code` for a statement: `prepare`, whose
     * `NotDeclaredError` rolls the new fragment back, then `execute` when
     * there is a program. `prepared` is what `prepare` returned.
     */
    method PrepareAndExecute(next: nat, failed: bool) returns (out: Outcome, prepared: Result<string>)
      requires Valid() && codes.history != []
      modifies reg, codes
      ensures Valid() && reg.declaredParams == old(reg.declaredParams)
      ensures codes.nextId == old(codes.nextId) && codes.pinned == old(codes.pinned) && codes.executeBlocks == old(codes.executeBlocks)
      ensures PreparedTurn(next, failed, out, prepared, old(reg.assignedParams), old(codes.history))
    {
      prepared := Prepare();
      ghost var live := reg.assignedParams;
      ghost var blocks := codes.executeBlocks;
      if prepared == Err(NotDeclaredError) {
        var _ := codes.Rollback();
        assert codes.executeBlocks == blocks && reg.assignedParams == live;
        return Continue(next), prepared;
      }
      if prepared.Err? {
        return Raised(prepared.error), prepared;
      }
      out := Continue(next);
      ghost var text := ProgramText(template, blocks, reg.declaredParams, live);
      assert prepared.value == text;
      if prepared.value != [] {
        var e := Execute(failed);
        assert codes.executeBlocks == blocks;
      }
    }

    /**
     * The effect of a statement turn on the handlers. `cached` is the live
     * map `cache_code` leaves and `prepared` what `prepare` returned, when it
     * was reached. A statement that is not read to its end changes nothing
     * but the cleared pin and emission list. A declaration (`IsDeclared` is
     * not `Ok(false)`) leaves the live names and the emission list empty; an
     * expression makes live exactly the least closed set over what it
     * mentions, or raises `KeyError` for an undeclared live name. `prepare`
     * then scans the emitted fragments and the methods they use, and
     * `execute` forgets the live names and, when the compiler failed, rolls
     * the statement back.
     */
    twostate predicate StatementTurn(text: string, input: seq<Input>, pos: nat, failed: bool,
      out: Outcome, new prepared: Option<Result<string>>, new cached: seq<(string, Kind)>)
      requires pos <= |input|
      reads this, reg, codes
    {
      var g := Gen(text, input, pos);
      (out.Continue? ==> g.Built? && out.next == g.next)
      && if !g.Built? then
        prepared == None && cached == old(reg.assignedParams)
        && out == (if g.Interrupted? then Raised(KeyboardInterruptInBlock) else Waiting)
        && codes.history == old(codes.history) && codes.pinned == None && codes.executeBlocks == []
        && reg.assignedParams == old(reg.assignedParams) && reg.declaredParams == old(reg.declaredParams)
      else
        var entry := Entry(old(codes.nextId), g.block);
        var added := old(codes.history) + [entry];
        var decls := DeclaredOf(old(reg.declaredParams), Code);
        codes.nextId == old(codes.nextId) + 1 && codes.pinned == Some(entry)
        && (IsDeclared(g.block) != Ok(false) ==> (codes.executeBlocks == [] && cached == old(reg.assignedParams)
          && (prepared.Some? <==> IsDeclared(g.block).Ok? && BlockNames(g.block).Ok?)))
        && (IsDeclared(g.block).Err? ==> (out == Raised(IsDeclared(g.block).error)
          && reg.declaredParams == old(reg.declaredParams)))
        && (IsDeclared(g.block) == Ok(true) && BlockNames(g.block).Err? ==> (out == Raised(BlockNames(g.block).error)
          && reg.declaredParams == old(reg.declaredParams)))
        && (IsDeclared(g.block) == Ok(true) && BlockNames(g.block).Ok? ==>
          reg.declaredParams == UpsertAll(old(reg.declaredParams), BlockNames(g.block).value, CodeEntry(entry)))
        && (IsDeclared(g.block) == Ok(false) ==> (reg.declaredParams == old(reg.declaredParams)
          && (prepared.None? && out == Raised(KeyError) <==> exists n :: LiveCode(old(reg.assignedParams), n) && n !in Keys(decls))
          && (prepared.None? ==> out == Raised(KeyError) || out == Raised(ValueError))
          && Least(cached, old(reg.assignedParams), decls, ParseToCodes(g.block))))
        && (IsDeclared(g.block) == Ok(false) && !(prepared.None? && out == Raised(KeyError)) ==> (Closed(cached, decls)
          && Covers(cached, decls, ParseToCodes(g.block))
          && KeepsLive(old(reg.assignedParams), cached) && GrowsWithin(old(reg.assignedParams), cached, decls)
          && UniqueKeys(cached) && (prepared.Some? <==> ExecuteBlocks(added, Some(entry), cached, decls, added).Ok?)))
        && (IsDeclared(g.block) == Ok(false) && prepared.Some? ==> (UniqueKeys(cached)
          && Ok(codes.executeBlocks) == ExecuteBlocks(added, Some(entry), cached, decls, added)))
        && (prepared.None? ==> reg.assignedParams == cached && out.Raised? && codes.history == added)
        && (prepared.Some? ==> PreparedTurn(g.next, failed, out, prepared.value, cached, added))
    }

    /**
     * What `prepare` and `execute` leave after `cache_code` added the last
     * entry of `added`, starting from the live map `cached`.
     */
    ghost predicate PreparedTurn(next: nat, failed: bool, out: Outcome, prepared: Result<string>,
      cached: seq<(string, Kind)>, added: seq<Entry>)
      requires added != []
      reads this, reg, codes
    {
      var live := PreparedLive(cached, reg.declaredParams, codes.executeBlocks);
      var before := added[..|added| - 1];
      (prepared.Err? || prepared.value == [] ==> reg.assignedParams == live)
      && (prepared == Err(NotDeclaredError) <==> codes.executeBlocks != [] && live == [])
      && (prepared == Err(KeyError) <==> PreparedMethods(cached, reg.declaredParams, codes.executeBlocks).Err?)
      && (prepared.Err? ==> prepared.error == KeyError || prepared.error == NotDeclaredError)
      && (prepared.Ok? ==> prepared.value == ProgramText(template, codes.executeBlocks, reg.declaredParams, live))
      && (prepared == Err(NotDeclaredError) ==> out == Continue(next) && codes.history == before)
      && (prepared == Err(KeyError) ==> out == Raised(KeyError) && codes.history == added)
      && (prepared.Ok? && (prepared.value == [] || !failed) ==> out == Continue(next) && codes.history == added)
      && (prepared.Ok? && prepared.value != [] ==> (reg.assignedParams == []
        && (failed ==> out == Continue(next) && codes.history == before)))
    }

    /**
     * A statement: `cache_code`, then `prepare` and `execute`. The fragment
     * stays in the history unless `prepare` raised `NotDeclaredError` or the
     * compiler failed. `prepared` is what `prepare` returned, when it was
     * reached.
     */
    method RunCode(text: string, input: seq<Input>, pos: nat, failed: bool)
      returns (out: Outcome, prepared: Option<Result<string>>, ghost cached: seq<(string, Kind)>)
      requires Valid() && pos <= |input|
      modifies reg, codes
      ensures Valid()
      ensures KeepsDeclarations(old(reg.declaredParams), reg.declaredParams)
      ensures StatementTurn(text, input, pos, failed, out, prepared, cached)
    {
      out := CacheCode(text, input, pos);
      prepared := None;
      cached := reg.assignedParams;
      if !out.Continue? {
        return;
      }
      ghost var added := codes.history;
      assert added[..|added| - 1] == old(codes.history);
      var r;
      out, r := PrepareAndExecute(out.next, failed);
      prepared := Some(r);
    }

    /**
     * `parse_input`: one line routed by `RouteOf`. An empty line and `exit`
     * change nothing; imports and methods touch only the declarations; no
     * turn forgets a declaration.
     */
    method ParseInput(text: string, input: seq<Input>, pos: nat, failed: bool)
      returns (out: Outcome, prepared: Option<Result<string>>, ghost cached: seq<(string, Kind)>)
      requires Valid() && pos <= |input|
      modifies reg, codes
      ensures Valid()
      ensures KeepsDeclarations(old(reg.declaredParams), reg.declaredParams)
      ensures RouteOf(text) == Empty ==> out == Continue(pos) && unchanged(reg) && unchanged(codes)
      ensures RouteOf(text) == Exit ==> out == Quit && unchanged(reg) && unchanged(codes)
      ensures RouteOf(text) in {Import, Func} ==> unchanged(codes) && reg.assignedParams == old(reg.assignedParams)
      ensures RouteOf(text) in {Direct, Playground, Export} ==> (reg.declaredParams == old(reg.declaredParams)
        && codes.pinned == old(codes.pinned) && codes.executeBlocks == old(codes.executeBlocks))
      ensures RouteOf(text) in {Playground, Export} ==> codes.history == old(codes.history)
      ensures RouteOf(text) in {Playground, Export} ==>
        (out == Continue(pos) || out == Raised(KeyError) || out == Raised(NotDeclaredError))
      ensures RouteOf(text) == Direct ==> (var content := DirectCommand(template, println(text));
        (content == [] ==> out == Continue(pos) && codes.history == old(codes.history) && reg.assignedParams == old(reg.assignedParams))
        && (content != [] && !failed ==> out == Continue(pos) && codes.history == old(codes.history) && reg.assignedParams == [])
        && (content != [] && failed && old(codes.history) != [] ==> (out == Continue(pos)
          && codes.history == old(codes.history)[..|old(codes.history)| - 1] && reg.assignedParams == []))
        && (content != [] && failed && old(codes.history) == [] ==> out == Raised(IndexError)))
      ensures RouteOf(text) == Import && !EndsWith(text, '(') ==> (out == Continue(pos)
        && reg.declaredParams == Imported(old(reg.declaredParams), text))
      ensures RouteOf(text) == Import && EndsWith(text, '(') ==> (
        if pos == |input| || input[pos] == Interrupt || input[pos] == Typed(")") then
          reg.declaredParams == old(reg.declaredParams)
          && out == (if pos == |input| then Waiting else if input[pos] == Interrupt then Quit else Continue(pos + 1))
        else out == Waiting && reg.declaredParams == Imported(old(reg.declaredParams), input[pos].text))
      ensures var g := Gen(text, input, pos);
        RouteOf(text) == Func && !g.Built? ==> out == (if g.Interrupted? then Raised(KeyboardInterruptInBlock) else Waiting)
      ensures var g := Gen(text, input, pos);
        RouteOf(text) == Func && g.Built? && MethodName(g.block.opener).None? ==> out == Raised(AttributeError)
      ensures var g := Gen(text, input, pos);
        RouteOf(text) == Func && g.Built? && MethodName(g.block.opener).Some? ==> (out == Continue(g.next)
          && reg.declaredParams == Upsert(old(reg.declaredParams), MethodName(g.block.opener).value, MethodBlock(g.block)))
      ensures RouteOf(text) in {Playground, Export} ==> (
        reg.assignedParams == PreparedLive(old(reg.assignedParams), reg.declaredParams, codes.executeBlocks)
        && (out == Raised(KeyError) <==> PreparedMethods(old(reg.assignedParams), reg.declaredParams, codes.executeBlocks).Err?)
        && (out == Raised(NotDeclaredError) <==> codes.executeBlocks != [] && reg.assignedParams == []))
      ensures RouteOf(text) != Statement ==> prepared == None
      ensures RouteOf(text) == Statement ==> StatementTurn(text, input, pos, failed, out, prepared, cached)
    {
      prepared := None;
      cached := reg.assignedParams;
      match RouteOf(text)
      case Empty =>
        out := Continue(pos);
      case Direct =>
        out := RunDirect(text, pos, failed);
      case Exit =>
        out := Quit;
      case Playground =>
        out := ExportProgram(pos);
      case Export =>
        out := ExportProgram(pos);
      case Import =>
        out := CachePackages(text, input, pos);
      case Func =>
        out := CacheFunc(text, input, pos);
      case Statement =>
        out, prepared, cached := RunCode(text, input, pos, failed);
    }
  }
}
