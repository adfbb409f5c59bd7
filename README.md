# gonsole core, modelled in Dafny

gonsole is an interactive Go console (a REPL) written in Python. It works like this:
- Every line you type is wrapped into a Go program, compiled with `go run`, and run. The console then shows the output.
- Between turns it keeps the imported packages, the declared functions and the code fragments typed so far.
- Before each run it decides which earlier fragments are still needed, so that unused declarations do not stop the Go compiler.
- An assignment registry records what each fragment declares.
- Each handler (packages, functions, code) fills its placeholder in the program template.

This project models that core:
- the block tree a multi-line fragment is read into (`Blocks`, `Generator`);
- the tokenizers that cut lines into the pieces the liveness scan compares names against (`Tokenizer`, `Codes`, `BlockTests`);
- the detection of declared names (`Declared`);
- the registry (`Registry`);
- the package and function handlers, current (`Handlers`) and older (`LegacyHandlers`);
- the code handler's liveness engine (`CodeHandling`);
- one console turn: routing an input line, preparing the program from the template, and committing or rolling back after the run (`Console`).

Python's string builtins are modelled in `Text`, indentation in `Indent`, and the exceptions in `Wrappers.PyError`.

Objects whose methods update their fields in place are classes:
- the registry;
- the handlers;
- the console.

Their methods' `ensures` state the whole new state. Each method is proved against the pure functions it is specified by, and the properties are proved about those functions. Blocks are values: once a block is built, nothing appends to it.

## Model

| member | source | states |
|---|---|---|
| Text.Strip | gonsole/block/block.py:102 | `s.strip(cs)` is no longer than `s`, starts and ends with no character of `cs`, and holds only characters of `s` |
| Text.TrimLeft | gonsole/block/block.py:102 | the leading run of stripped characters is removed: a suffix of `s` not starting with one, and only stripped characters before it |
| Text.TrimRight | gonsole/block/block.py:102 | the trailing run is removed: a prefix of `s` not ending with a stripped character, and only stripped characters after it |
| Text.StripInfix | gonsole/block/block.py:102 | `strip` returns a slice of `s` with only stripped characters outside it; with its clean ends this fixes the result |
| Text.StripKeeps | gonsole/block/block.py:102 | text already free of `cs` at both ends is left unchanged by strip |
| Text.StripAll | gonsole/block/block.py:102 | text made only of stripped characters strips to the empty string |
| Text.StripPadded | gonsole/console.py:165 | leading padding in front of a word with clean ends is removed and the word kept |
| Text.StripSpace | gonsole/block/block.py:95 | `s.strip()` is unpadded and no longer than `s` |
| Text.StripSpaceInfix | gonsole/block/block.py:95 | `strip()` returns a slice of `s` with only whitespace outside it |
| Text.StripBoth | gonsole/block/block.py:102 | padding of stripped characters on both sides of a word with clean ends is removed and the word kept |
| Text.Split | gonsole/block/block.py:100 | `s.split(c)` has at least one piece, no piece holds `c`, and it has more than one piece exactly when `c` occurs |
| Text.SplitJoin | gonsole/block/block.py:100 | joining the pieces of a split with the separator gives back the text |
| Text.SplitOfJoin | gonsole/block/block.py:100 | splitting pieces joined by a separator none of them holds gives back the pieces |
| Text.SplitChars | gonsole/block/block.py:100 | every character of every piece occurs in the text |
| Text.SplitNone | gonsole/block/block.py:96-97 | text without the separator splits into itself alone |
| Text.SplitThree | gonsole/block/block.py:100 | text with the separator at two places splits into exactly the three parts between them |
| Text.SplitConcat | gonsole/block/block.py:100 | splitting at one separator occurrence concatenates the splits of both sides |
| Text.BeforeFirst | gonsole/block/declared.py:29 | `s.split(pat)[0]` is a prefix of `s` without `pat`, and `pat` follows it exactly when `pat` occurs in `s` |
| Text.BeforeFirstAt | gonsole/block/declared.py:29 | the text before the first separator is the word in front of it |
| Text.Repeat | gonsole/utils.py:9 | `s * k` has `k` times the length and only characters of `s` |
| Text.RepeatCopies | gonsole/utils.py:9 | `s * k` holds `s[i % len(s)]` at each position `i`: `k` copies of `s` in a row |
| Text.ReplaceCopies | gonsole/handlers.py:86-87 | `str.replace` of a pattern opening with a marker copies marker-free text through unchanged |
| Text.ReplaceMarkerFree | gonsole/handlers.py:86-87 | marker-free text is not changed by the replacement |
| Text.ReplaceHit | gonsole/handlers.py:86-87 | an occurrence at the front is replaced and the scan resumes after it |
| Text.ReplaceSkip | gonsole/handlers.py:86-87 | text that differs from the pattern early and is marker-free after its first character is copied through |
| Text.StripWrapped | gonsole/handlers.py:112 | a quoted word strips to the word |
| Sets.SubsetSize | gonsole/handlers.py:115-116 | a subset has no more elements than the set, the bound under the used-package count |
| Indent.InflateSpace | gonsole/utils.py:8-9 | `indent` units of four spaces followed by the line, nothing else |
| Indent.InflateSpaceZero | gonsole/utils.py:8-9 | indenting by zero units leaves the line as it is |
| Indent.InflateSpaceTwice | gonsole/utils.py:8-9 | indenting by `j` then `k` units is indenting by `j + k` |
| Indent.InflateOnce | libs/utils.py:10-11 | the older one-argument form is the current one with one unit |
| Codes.FilterRealCodes | gonsole/block/codes.py:6-12 | keeps exactly the non-empty pieces not starting with a quote or digit, in order, as a subsequence |
| Codes.FilterRealCodesKeepsReal | gonsole/block/codes.py:6-12 | a list of real pieces is returned unchanged |
| Codes.FilterRealCodesAppend | gonsole/block/codes.py:6-12 | filtering distributes over concatenation |
| Codes.FilterRealCodesIdempotent | gonsole/block/codes.py:6-12 | filtering twice equals filtering once |
| Codes.FilterRealCodesDropsAll | gonsole/block/codes.py:6-12 | a list with no real piece filters to nothing |
| Codes.SubsequenceMembers | gonsole/block/codes.py:8-12 | every kept piece is one of the input pieces |
| Codes.FilterUnquoted | libs/utils.py:18-19 | keeps exactly the non-empty pieces not starting with `"`, in order |
| Codes.FilterUnquotedKeepsLiterals | src/utils.py:6-7 | the older filter keeps apostrophe- and digit-leading pieces the current filter drops |
| Tokenizer.ParseWithSymbols | gonsole/block/block.py:92-104 | the parse of a line is never empty |
| Tokenizer.ParseWithSymbolsHead | gonsole/block/block.py:92-104 | a line holding a symbol yields itself first; a line holding none yields exactly its stripped self |
| Tokenizer.ParseAtSymbol | gonsole/block/block.py:99-104 | a line holding the first symbol is emitted whole, then the parse of each of its split pieces under the other symbols |
| Tokenizer.ParseSkipsAbsent | gonsole/block/block.py:96-97 | leading symbols absent from the line do not change the parse |
| Tokenizer.TrimPieces | gonsole/block/block.py:102 | one trimmed piece per piece |
| Tokenizer.ParsePiecesPlain | gonsole/block/block.py:100-103 | pieces holding no remaining symbol yield one trimmed token each, in order |
| Tokenizer.ParseLines | gonsole/block/block.py:109-110 | at least one token per line |
| Tokenizer.ParseLinesOne | gonsole/block/block.py:109-110 | a one-line block parses as that line |
| Tokenizer.Tokens | gonsole/block/block.py:106-112 | every token is real code |
| Tokenizer.TokensOne | gonsole/block/block.py:106-112 | the tokens of one line are the filtered parse of that line under the nine split symbols |
| Tokenizer.LegacyTokens | gonsole/block.py:105-111 | every token of the older tokenizer is real code |
| Tokenizer.PackageParseShape | libs/utils.py:23-29 | every token of the older splitter avoids each split symbol and whatever the line avoided, and has no `)` at either end |
| Tokenizer.PackagePiecesShape | libs/utils.py:26-28 | the same shape holds for the tokens of every split piece |
| Tokenizer.ParseCode | libs/utils.py:22-32 | every token of `parse_code` is unquoted, has no `)` at either end and holds no `,`, `;` or `(` |
| BlockTests.SplitNestedCall | test/block_test.py:17-25 | `f(x())` splits on `(` into `f`, `x` and `))` |
| BlockTests.NestedCallPieces | test/block_test.py:17-25 | those pieces parse to `f`, `x` and an empty token |
| BlockTests.NestedCallChars | test/block_test.py:17-25 | no space, comma or semicolon occurs in `f(x())` |
| BlockTests.SplitAtParen | test/block_test.py:17-25 | from `(` on, the line is emitted whole, then its pieces |
| BlockTests.ParseNestedCall | test/block_test.py:17-25 | the parse of `f(x())` is the line, `f`, `x` and an empty piece |
| BlockTests.SplitSymbolsCall | gonsole/block/block.py:107 | the split symbols put `(` fourth, after three non-parentheses |
| BlockTests.NestedCallTokens | test/block_test.py:17-25 | the tokens of `f(x())` are the line, `f` and `x`, in that order, as the test asserts for `get(console.Find())` |
| BlockTests.ParseCallLiteral | test/block_test.py:9-15 | the parse of `f(q)`, `q` a literal, is the line, `f` and `q`, the closing parenthesis trimmed |
| BlockTests.CallLiteralTokens | test/block_test.py:9-15 | the tokens of `f(q)`, `q` a literal, are the line and `f`: two, as the test asserts for `fmt.Println("aa")` |
| BlockTests.ParseCallQuoted | test/block_test.py:27-33 | the parse of `f(q(t`, `q` a literal, is the line, `f`, `q` and what `t` trims to |
| BlockTests.CallQuotedTokens | test/block_test.py:27-33 | the tokens of `f(q(t` are the line and `f` when what `t` trims to is no real code |
| BlockTests.CallQuotedCallTokens | test/block_test.py:27-33 | the tokens of `f("q()")` are the line and `f`, as the test asserts for `get("console.Find()")` |
| PackageTests.PackageSkip | libs/utils.py:23-29 | a line without the first split symbol parses as its `)`-stripped self under the remaining symbols |
| PackageTests.PackageLeaves | libs/utils.py:26-28 | pieces holding no remaining symbol yield one `)`-stripped token each, in order |
| PackageTests.FilterNames | libs/utils.py:18-19 | unquoted names followed by pieces that are all empty or quoted filter to the names |
| PackageTests.PackageCodes | libs/utils.py:22-32 | a line whose parse is names followed by empty or quoted pieces has exactly those names as `parse_code` tokens |
| PackageTests.NestedCallCodes | test/utils_test.py:16-23 | `parse_code` of `f(x())` is `f` and `x`, as the test asserts for `get(console.Find())` |
| PackageTests.LiteralCallCodes | test/utils_test.py:10-14 | `parse_code` of `f(q)`, `q` quoted, is `f` alone, as the test asserts for `fmt.Println("aa")` |
| PackageTests.TailCallCodes | test/utils_test.py:25-31 | `parse_code` of `f(q(e)`, `q` quoted, is `f` alone when `e` strips of `)` to an empty or quoted piece |
| PackageTests.QuotedCallCodes | test/utils_test.py:25-31 | `parse_code` of `f("q()")` is `f` alone, as the test asserts for `get("console.Find()")` |
| Blocks.NewBlock | gonsole/block/block.py:48-49 | a new block's `codes` is exactly the opener line |
| Blocks.Append | gonsole/block/block.py:51-52 | `append` adds exactly one element at the end and keeps the others |
| Blocks.Flatten | libs/block.py:20-25 | the flattened lines start with the opener |
| Blocks.FlattenUnfold | libs/block.py:20-25 | the flattening is the opener followed by each element's lines in order |
| Blocks.FlattenElemsAppend | gonsole/block/block.py:59-63 | the lines of concatenated element lists are the concatenated lines |
| Blocks.DeflatedUnfold | libs/block.py:27-32 | the deflated lines are each element's deflated lines in order |
| Blocks.DeflatedElemsAppend | gonsole/block/block.py:68-73 | deflating concatenated element lists concatenates the results |
| Blocks.DeflateIndents | gonsole/block/block.py:66-74 | `deflate(k)` yields as many lines as `get_codes`, each the matching line indented by `k` plus its nesting depth |
| Blocks.DeflateFlat | libs/block.py:27-32 | a block with no nested block deflates at indent 0 to its own lines |
| Blocks.GetCodes | gonsole/block/block.py:57-64 | the loop returns exactly the depth-first literal lines |
| Blocks.Deflate | gonsole/block/block.py:66-74 | the loop returns exactly the indented depth-first lines |
| Blocks.ParseToCodes | gonsole/block/block.py:106-112 | every token is real code, and the tokens are a subsequence of the parse of the flattened lines |
| Blocks.LegacyParseToCodes | gonsole/block.py:105-111 | the same for the older symbol list without the space |
| Blocks.IsDeclared | gonsole/block/block.py:87-90 | `IndexError` exactly when the opener has no real `;`-clause; otherwise true iff its last real clause has a declaration symbol |
| Blocks.IsDeclaredLastClause | gonsole/block/block.py:87-90 | only the opener's last clause decides, whatever precedes it |
| DeclaredTests.OneClauseDeclared | gonsole/block/block.py:87-90 | a one-clause fragment is a declaration exactly when its clause has a declaration symbol |
| DeclaredTests.WalrusDeclared | test/block_test.py:35-40 | `n := rhs` is a declaration, as the test asserts for `a := 1` |
| DeclaredTests.KeywordDeclared | test/block_test.py:56-75 | `var w …` and `const w …` are declarations, as for `var a int64` and `const x string = "hello world"` |
| DeclaredTests.LaterClauseUndeclared | test/block_test.py:42-47 | a last clause without `:` after `;` makes the fragment no declaration, whatever precedes it, as for `a := 1; a++` |
| DeclaredTests.ComparisonUndeclared | test/block_test.py:49-54 | a one-clause fragment without `:` not starting with `v`, `c` or `t` is no declaration, as for `a >= 1` |
| DeclaredTests.OneLineNames | gonsole/block/block.py:80-85 | the names of a one-clause fragment that opens no batch are those of its clause |
| DeclaredTests.KeywordNames | test/block_test.py:77-91 | `var w …` and `const w …` declare exactly `w`, as for `a` and `x` |
| DeclaredTests.WalrusNamesOne | test/block_test.py:93-99 | `n := rhs` declares exactly `n`, as for `a := "123"` |
| Blocks.SplitLastPiece | gonsole/block/block.py:89 | the last `;`-piece of `a;b` is `b` |
| Blocks.FirstIndex | gonsole/block/block.py:96 | `find` returns the first index holding the character |
| Blocks.BatchNames | gonsole/block/declared.py:46-56 | no names unless the opener's last clause opens a `var (`/`const (` batch; that branch always raises, `IndexError`, `AttributeError` or `TypeError` according to `codes[1]` |
| Blocks.ElemsNames | gonsole/block/block.py:83-84 | success implies every element is a line (a nested block raises `AttributeError`) |
| Blocks.BlockNames | gonsole/block/block.py:80-85 | a `var (`/`const (` opener fails exactly as the batch helper does; otherwise a block of lines gives, error or names, what its flattened lines give in order; success implies no nested block |
| Blocks.LinesNamesOfFlat | gonsole/block/block.py:83-84 | on elements that are all lines, the per-element result equals that of the flattened lines, the first error included |
| Blocks.LegacyDeclaredVari | gonsole/block.py:80-85 | a captured name is a word |
| Blocks.LegacyDeclaredVariSound | gonsole/block.py:35-37 | a captured name is the one one of the three patterns captures |
| Blocks.LegacyDeclaredVariMatches | gonsole/block.py:80-85 | a clause of any of the three forms captures its name, whichever pattern is tried first |
| Blocks.LegacyIsDeclared | gonsole/block.py:87-90 | false for a block of more than one element; `IndexError` exactly when there is no real clause; true only when the last clause matches a declaration pattern |
| Blocks.LegacyLinesNames | gonsole/block.py:48-52 | at most one name per line, each a word |
| Blocks.LegacyBlockNames | gonsole/block.py:48-52 | at most one name per flattened line, each a word |
| Generator.Gen | gonsole/block/block.py:22-31 | a built block leaves the read position within the inputs |
| Generator.Fill | gonsole/block/block.py:33-38 | a filled block reads at least the closing line |
| Generator.TextsAppend | gonsole/block/block.py:34-37 | the typed texts of two stretches concatenate |
| Generator.FlattenAppend | gonsole/block/block.py:36-38 | an appended element adds its lines at the end of the flattening |
| Generator.FlattenNew | gonsole/block/block.py:24 | a new block flattens to its opener |
| Generator.GenConsumes | gonsole/block/block.py:22-38 | a built block is exactly the lines it consumed: the opener, then the consumed inputs, none of them an interrupt |
| Generator.FillConsumes | gonsole/block/block.py:33-38 | filling appends exactly the consumed typed lines to the flattening |
| Generator.ConsumedSplit | gonsole/block/block.py:34-37 | one line, a nested stretch and the rest compose into one typed stretch |
| Generator.GenShape | gonsole/block/block.py:22-31 | an opener ending in `{` or `(` builds a block whose last element is a line ending with the closer and all earlier appended elements are nested blocks; any other line is a one-line block reading nothing |
| Generator.FillShape | gonsole/block/block.py:33-38 | filling adds nested blocks and one final closing line |
| Generator.FillUnfold | gonsole/block/block.py:35-37 | a non-closing line adds its nested block and reading resumes after it |
| Generator.ShapedAsAppend | gonsole/block/block.py:36 | a shape after one more nested block is a shape of the shorter block |
| Generator.Generate | gonsole/block/block.py:22-31 | the method builds the same outcome as `Gen`: block, interrupt or exhausted input |
| Generator.ContinuingGetInput | gonsole/block/block.py:33-38 | the loop builds the same outcome as `Fill` |
| Generator.GenUpToInterrupt | gonsole/block/block.py:22-38 | an interrupt at `k` leaves the outcome of the inputs before `k`, except that a block still open raises `KeyboardInterruptInBlock` |
| Generator.GenInterrupted | gonsole/block/block.py:29-30 | an interrupt before the block closes raises `KeyboardInterruptInBlock` |
| Generator.GenInterruptFirst | gonsole/block/block.py:25-30 | an interrupt as the first continuation line of an opener raises `KeyboardInterruptInBlock` |
| Declared.DeclaredSymbol | gonsole/block/declared.py:15-19 | `:=` anywhere wins; otherwise `var`, `const` or `type` when the clause starts with that keyword and a space; none otherwise, each case both ways |
| Declared.WordRun | gonsole/block/declared.py:8 | the greedy `[_\w]+` run: a prefix of word characters followed by a non-word character or the end |
| Declared.WordRunPrefix | gonsole/block/declared.py:8 | the greedy word run of text starting with a word and then a non-word character is that word |
| Declared.SpaceCount | gonsole/block/declared.py:8 | the greedy ` *` run: leading spaces followed by a non-space or the end |
| Declared.ItemLength | gonsole/block/declared.py:8 | one `, *[_\w]+` item fits in the text |
| Declared.ContinuationLength | gonsole/block/declared.py:8 | the greedy `(, *[_\w]+)*` match fits in the text |
| Declared.StripNonEmpty | gonsole/block/declared.py:26 | the comprehension keeps at most one name per piece, each unpadded |
| Declared.StripNonEmptyAppend | gonsole/block/declared.py:26 | the comprehension distributes over concatenated pieces |
| Declared.StripNonEmptyOne | gonsole/block/declared.py:26 | one piece is dropped when empty and stripped otherwise |
| Declared.StripNonEmptyAll | gonsole/block/declared.py:26 | with no empty piece, the names are the stripped pieces one for one |
| Declared.SplitNames | gonsole/block/declared.py:29 | the names hold no comma, are unpadded, at most one per comma piece |
| Declared.StripNonEmptyKeepsOut | gonsole/block/declared.py:26 | a character absent from every piece is absent from every name |
| Declared.VarisGroup | gonsole/block/declared.py:8 | the `varis` group matches exactly when a word character follows `var ` or `const ` |
| Declared.VarConstNames | gonsole/block/declared.py:24-26 | `AttributeError` exactly when the pattern does not match |
| Declared.VarConstNamesWords | gonsole/block/declared.py:24-26 | a matching clause declares its first word and then each word of the comma continuation, in order |
| Declared.GroupPieces | gonsole/block/declared.py:25-26 | the comma pieces of the group are the first word and one padded word per item |
| Declared.ContinuationStep | gonsole/block/declared.py:8 | a non-empty continuation is a comma, spaces, a word and a shorter continuation |
| Declared.ItemParts | gonsole/block/declared.py:8 | the parts of the first item, and where it ends |
| Declared.ItemPrefix | gonsole/block/declared.py:8 | a continuation is its first item followed by the rest of the continuation |
| Declared.WordsUnfold | gonsole/block/declared.py:8 | the words and pieces of a continuation unfold one item at a time |
| Declared.ContinuationSplit | gonsole/block/declared.py:25-26 | a comma-free word followed by the continuation splits into the word and one piece per item |
| Declared.StripPieces | gonsole/block/declared.py:26 | stripping the continuation pieces leaves exactly its words |
| Declared.StripWords | gonsole/block/declared.py:26 | stripping a word and its continuation pieces leaves exactly the words |
| Declared.NoCommaInPaddedWord | gonsole/block/declared.py:8 | spaces then word characters hold no comma |
| Declared.TypeName | gonsole/block/declared.py:32 | the word after `type `, both ways; `AttributeError` when none follows |
| Declared.ClauseNames | gonsole/block/declared.py:22-34 | a clause declaring nothing gives no names, a `:=` clause gives the comma names before `:=`, and only keyword clauses can raise `AttributeError` |
| Declared.ClausesNames | gonsole/block/declared.py:37-43 | fails exactly when some clause fails, with `AttributeError` |
| Declared.LineNames | gonsole/block/declared.py:37-43 | a line's only possible exception is `AttributeError` |
| Declared.ClausesNamesSkip | gonsole/block/declared.py:39-42 | clauses that declare nothing contribute nothing |
| Declared.ClausesNamesAppend | gonsole/block/declared.py:39-42 | the names of two clause lists are concatenated, and their concatenation succeeds iff both do |
| Declared.SplitJoinedWords | gonsole/block/declared.py:29 | the pieces of `w1, …, wn ` strip to the words |
| Declared.WalrusNames | gonsole/block/declared.py:29 | `w1, …, wn := rhs` declares exactly the words, in order, whatever the right-hand side |
| Declared.KeywordOneName | gonsole/block/declared.py:24-26 | `var w …` or `const w …` with no comma continuation declares `w` alone |
| Registry.Keys | gonsole/handlers.py:38-39 | the keys, one per entry, in insertion order |
| Registry.Lookup | gonsole/handlers.py:142 | a key is found exactly when it is a key, with a value it is stored with |
| Registry.UpsertLookup | gonsole/handlers.py:27-31 | after `d[k] = v`, `k` maps to `v` and every other key to its old value |
| Registry.UpsertKeys | gonsole/handlers.py:27-31 | the keys keep their order and a new key goes at the end: at most one more entry |
| Registry.UpsertUnique | gonsole/handlers.py:27-31 | assignment keeps the keys distinct |
| Registry.NamesOf | gonsole/handlers.py:33-36 | the live names of a kind are live names |
| Registry.NamesOfAppend | gonsole/handlers.py:33-36 | the names of a kind distribute over concatenation, order kept |
| Registry.NamesOfMembers | gonsole/handlers.py:33-36 | a name is listed under a kind exactly when the live-name map gives it that kind |
| Registry.DeclaredOf | gonsole/handlers.py:44-49 | the declarations of a kind are declarations of that kind |
| Registry.DeclaredOfAppend | gonsole/handlers.py:44-49 | they distribute over concatenation, order kept |
| Registry.DeclaredOfPrefix | gonsole/handlers.py:46-48 | one more entry is added exactly when it has the kind |
| Registry.HeadKeyAbsent | gonsole/handlers.py:31 | the first entry's key occurs nowhere else |
| Registry.LookupCons | gonsole/handlers.py:142 | lookup finds the first matching entry |
| Registry.DeclaredOfLookup | gonsole/handlers.py:44-49 | a name is found among the declarations of a kind, with its payload, exactly when it is declared under that kind |
| Registry.RedeclareHides | gonsole/handlers.py:30-31 | declaring a name under another kind removes it from the old kind and makes it found under the new one |
| Registry.AssignmentManager.constructor | gonsole/handlers.py:15-17 | both dictionaries start empty |
| Registry.AssignmentManager.AddAssigned | gonsole/handlers.py:27-28 | the live names become the upsert of the name with its kind; the declarations are unchanged |
| Registry.AssignmentManager.AddDeclared | gonsole/handlers.py:30-31 | the declarations become the upsert of the name with its payload; the live names are unchanged |
| Registry.AssignmentManager.GetAssigned | gonsole/handlers.py:33-36 | the loop returns the live names of the kind in insertion order |
| Registry.AssignmentManager.GetDeclared | gonsole/handlers.py:44-49 | the loop returns the declarations of the kind in insertion order |
| Registry.AssignmentManager.Clear | gonsole/handlers.py:51-52 | the live names are emptied; the declarations stay |
| Handlers.ScanTokenStep | gonsole/handlers.py:67-71 | one more declared name in the inner loop marks it live exactly when `is_assigned` holds |
| Handlers.ScanTokensStep | gonsole/handlers.py:66-71 | one more token in the outer loop applies the inner loop to it |
| Handlers.ScanTokenLookup | gonsole/handlers.py:67-71 | after one token, a name has the handler's kind if it is declared under that kind and the token starts with it; every other entry keeps its value |
| Handlers.ScanTokensLookup | gonsole/handlers.py:65-71 | `scan` marks a name live exactly when it is declared under the handler's kind and some token starts with it; nothing else changes |
| Handlers.ScanTokenUnique | gonsole/handlers.py:67-71 | scanning one token keeps the live names distinct |
| Handlers.ScanTokensUnique | gonsole/handlers.py:65-71 | scanning keeps the live names distinct |
| Handlers.ScanTokensAppend | gonsole/handlers.py:76-78 | scanning two stretches of tokens is scanning one, then the other |
| Handlers.BlocksTokensMembers | gonsole/handlers.py:76-78 | a token of the scanned blocks is a token of one of them |
| Handlers.Scan | gonsole/handlers.py:65-71 | the loops leave the declarations alone and leave the live names as the scan of the block's tokens |
| Handlers.ScanCode | gonsole/handlers.py:67-71 | the inner loop leaves the live names as the scan of one token |
| Handlers.Mark | gonsole/handlers.py:68-71 | the name is made live with the kind exactly when `is_assigned` holds |
| Handlers.ScanUsed | gonsole/handlers.py:76-78 | scanning each block in turn is scanning all their tokens in order |
| Handlers.PackageMatchedBySegment | gonsole/handlers.py:118-120 | a package is live when a token starts with its last dot segment, e.g. `fmt` by `fmt.Println`, a dotted path by its last segment |
| Handlers.UnquoteQuoted | gonsole/handlers.py:111-113 | a package in double quotes is declared without them |
| Handlers.ImportLines | gonsole/handlers.py:128-129 | one import line per package, in order |
| Handlers.NamesOfCount | gonsole/handlers.py:115-116 | the live names of the three kinds add up to all the live names |
| Handlers.PackageHandler.constructor | gonsole/handlers.py:103-109 | the new handler has `fmt` declared, and no live name is added |
| Handlers.PackageHandler.Add | gonsole/handlers.py:111-113 | the unquoted package is declared under its own name; live names unchanged |
| Handlers.PackageHandler.UsedPackageLength | gonsole/handlers.py:115-116 | the count is that of all live names, of every kind |
| Handlers.PackageParseCodesLines | gonsole/handlers.py:122-129 | the import area splits back into one quoted, indented line per live package, in liveness order |
| Handlers.MethodName | gonsole/handlers.py:148-149 | a found method name is a word that occurs in the line as `func name(` |
| Handlers.MethodNameOfFunc | gonsole/handlers.py:135-149 | a line `func w(...` names the method `w` |
| Handlers.MethodNameAtFunc | gonsole/handlers.py:135 | the pattern matches at the start exactly for `func w(`, and captures `w` |
| Handlers.MethodNameFound | gonsole/handlers.py:148-149 | a line holding `func w(` anywhere yields a name |
| Handlers.MethodNameLeftmost | gonsole/handlers.py:148-149 | the name is that of the leftmost `func w(`, as `re.search` finds |
| Handlers.NoFuncAt | gonsole/handlers.py:135 | without `func w(` at the start, the pattern does not match there |
| Declared.WordRunOfWord | gonsole/handlers.py:135 | the greedy word run of a word followed by a non-word character is that word |
| Handlers.LookupMethods | gonsole/handlers.py:140-142 | `KeyError` exactly when some live method name has no declaration |
| Handlers.LookupMethodsBlocks | gonsole/handlers.py:140-142 | each block found is the one declared under the name at the same position |
| Handlers.LiveMethodsMembers | gonsole/handlers.py:157-160 | a method is assembled exactly when it is declared under a live name |
| Handlers.FunctionHandler.constructor | gonsole/handlers.py:137-138 | the handler uses the shared registry |
| Handlers.FunctionHandler.Add | gonsole/handlers.py:144-149 | `AttributeError` with nothing changed exactly when the opener names no method; otherwise the block is declared under its name |
| LegacyHandlers.PackageLines | libs/handlers.py:38-44 | one indented line per package, in the iteration order |
| LegacyHandlers.PackageHandler.constructor | libs/handlers.py:10-12 | both sets start empty |
| LegacyHandlers.PackageHandler.Add | libs/handlers.py:14-15 | the package joins the set and the used packages are unchanged |
| LegacyHandlers.PackageHandler.UsedPackageLength | libs/handlers.py:17-21 | never more used packages than packages added |
| LegacyHandlers.PackageHandler.ScanUsedPackage | libs/handlers.py:26-32 | the loop adds exactly the added packages some token of `parse_code(code)` uses; none leaves and the packages are unchanged |
| LegacyHandlers.PackageHandler.UseToken | libs/handlers.py:28-32 | one token adds the added packages it uses |
| LegacyHandlers.UsedBy | libs/handlers.py:26-32 | only added packages become used |
| LegacyHandlers.UsedByPrefix | libs/handlers.py:27-32 | one more token adds the packages it uses |
| LegacyHandlers.UsedByMembers | libs/handlers.py:26-36 | a package is used exactly when it was added and some token starts with its last unquoted path segment |
| LegacyHandlers.ParsePackagesLines | libs/handlers.py:38-44 | the import area splits into one line per used package |
| CodeHandling.ScanCodeEffect | gonsole/handlers.py:65-71 | one scan under the code kind makes live every declared name the tokens mention, keeps live names live and makes nothing else live |
| CodeHandling.ProgressKeeps | gonsole/handlers.py:186-193 | further scanning keeps the fixpoint's progress |
| CodeHandling.ProgressAdd | gonsole/handlers.py:189-191 | a live name whose declaring block was scanned joins the scanned names |
| CodeHandling.LeastStart | gonsole/handlers.py:183-186 | before any scan, only the names already live are live: the least-fixpoint bound holds |
| CodeHandling.LeastScan | gonsole/handlers.py:186-191 | scanning the pinned block or the declaring block of a live name keeps every live name in every closed set |
| CodeHandling.UnmentionedStaysDead | gonsole/handlers.py:183-196 | a declared name that neither the pinned block nor another declaring fragment mentions is not made live |
| CodeHandling.UnusedFragmentDropped | gonsole/handlers.py:183-259 | for `a := 1`, `b := a`, `c := 2` and a statement using `b`, the fragments declaring `a` and `b` are emitted and the one declaring `c` is dropped |
| CodeHandling.EmittedWhenUsed | gonsole/handlers.py:225-259 | a fragment mentioning a live name it declares is emitted |
| CodeHandling.DroppedWhenUnused | gonsole/handlers.py:225-259 | a fragment other than the pinned one that mentions no live name is dropped |
| CodeHandling.LiveWithin | gonsole/handlers.py:186-193 | a name made live during the scan was already a key or is declared |
| CodeHandling.GrowWithin | gonsole/handlers.py:190 | adding a candidate keeps the scanned names within the candidates |
| CodeHandling.PrefixAdded | gonsole/handlers.py:189-190 | after the loop step, every name handled so far is scanned |
| CodeHandling.LeftShrinks | gonsole/handlers.py:193 | each round scans a new candidate, so the unscanned candidates shrink and the recursion ends |
| CodeHandling.Unscanned | gonsole/handlers.py:193 | `set(get_params()) - scanned_varis` holds exactly the listed names not scanned |
| CodeHandling.ScanClosure | gonsole/handlers.py:183-196 | `KeyError` exactly when a name live as code before the call is not declared as code; otherwise every live code name's declaring block and the pinned block have been scanned, live names stay live, and only declared names become live; every live name lies in every set closed under the scan (the least fixpoint) |
| CodeHandling.UnscannedLive | gonsole/handlers.py:193 | the names of the next round are exactly the live code names not scanned yet |
| CodeHandling.ScanRound | gonsole/handlers.py:189-191 | a round scans the declaring block of every name it is given, or fails with `KeyError` on a live name that is not declared |
| CodeHandling.ScanOne | gonsole/handlers.py:190-191 | `KeyError` exactly when the name is not declared as code; otherwise its declaring block is scanned and the name is scanned |
| CodeHandling.LiveNames | gonsole/handlers.py:89-90 | `get_params()` lists exactly the live code names |
| CodeHandling.IndexOf | gonsole/handlers.py:241-242 | `list.index`: the first position of the element; `None` (where Python raises `ValueError`) exactly when it is absent |
| CodeHandling.PropableParams | gonsole/handlers.py:239-243 | succeeds exactly when every name's declaring fragment and `b` are in the history; otherwise `KeyError` (only for an undeclared name) or `ValueError` |
| CodeHandling.PropableParamsKept | gonsole/handlers.py:239-243 | the names let through are a subsequence holding exactly the names declared at or before `b` |
| CodeHandling.AnyMentioned | gonsole/handlers.py:251-259 | the two `any` hold exactly when some token starts with some name |
| CodeHandling.NeedCompile | gonsole/handlers.py:245-259 | true for the pinned fragment; otherwise the same errors as above, and true exactly when a token starts with a live code name declared at or before the fragment |
| CodeHandling.NeedCompileMeaning | gonsole/handlers.py:249-259 | testing the names let through is testing the live names declared at or before the fragment |
| CodeHandling.ExecuteBlocks | gonsole/handlers.py:225-228 | succeeds exactly when every fragment's check succeeds; a failure is the error of some fragment's check |
| CodeHandling.ExecuteBlocksKept | gonsole/handlers.py:225-228 | the emitted fragments are a subsequence of the history holding exactly those that need compiling |
| CodeHandling.NoKeyErrorWhenDeclared | gonsole/handlers.py:239-243 | when every live code name is declared, choosing fragments can fail only with `ValueError` |
| CodeHandling.UpsertAllLookup | gonsole/handlers.py:206-208 | after `add_declareds`, each declared name maps to the fragment and every other declaration is untouched |
| CodeHandling.DeclareAll | gonsole/handlers.py:206-208 | the loop leaves the live names alone and declares each name in turn |
| CodeHandling.DeflateAllIndents | gonsole/handlers.py:230-237 | the code area holds every literal line of the emitted fragments, indented by one unit more than its depth |
| CodeHandling.DeflateBlocks | gonsole/handlers.py:230-234 | the loop returns every fragment's lines deflated by one unit, in order |
| CodeHandling.CodeHandler.constructor | gonsole/handlers.py:173-177 | empty history, nothing pinned, nothing to emit |
| CodeHandling.CodeHandler.ScanForExecute | gonsole/handlers.py:183-197 | `KeyError` exactly when a live code name is not declared; otherwise the live names are closed, cover the pinned fragment, keep and grow within the declarations, and the result succeeds exactly when choosing the fragments (`ExecuteBlocks`) succeeds, so `ValueError` comes only from a live name whose declaring fragment was rolled back; the emission list changes only on success, and then it is exactly the chosen fragments; the live names are always within the least closed set |
| CodeHandling.CodeHandler.Add | gonsole/handlers.py:202-210 | the fragment joins the history with a fresh serial number and is pinned; `is_declared`/`get_declared_varis` errors are raised with the registry unchanged; a declaration declares each of its names to it (`UpsertAll`) and scans nothing; any other fragment keeps the declarations and behaves as `ScanForExecute`: `KeyError` or `ValueError` only, `KeyError` exactly for an undeclared live name, otherwise the closure and success exactly when choosing the fragments succeeds |
| CodeHandling.CodeHandler.Rollback | gonsole/handlers.py:212-213 | drops the last fragment, `IndexError` on an empty history; the pin and the emission list stay |
| CodeHandling.CodeHandler.Clear | gonsole/handlers.py:215-217 | unpins and empties the emission list; the history stays |
| Console.RouteOf | gonsole/console.py:51-69 | each branch of `parse_input` is taken exactly under its own condition, checked in the source's order: empty, direct command (digit or quote first), `exit`, `playground`, `export `, `import `, `func `, else a statement |
| Console.ImportNameAfterKeyword | gonsole/console.py:164-165 | after `import `, the package is the rest of the line without surrounding spaces and commas |
| Console.QuotedKept | gonsole/console.py:165 | a quoted name keeps its quotes through `strip(' ,')` |
| Console.ImportQuoted | gonsole/console.py:164-166 | `import "p"` declares the package `p`, the quotes removed by the package handler |
| Console.PlaceholderShape | gonsole/console.py:81-86 | every placeholder opens with `{%`, holds it nowhere else and is told apart by its third character |
| Console.ReplaceRegion | gonsole/handlers.py:86-87 | replacing a placeholder fills a leading region and carries on after it |
| Console.ReplaceLayout | gonsole/handlers.py:86-87 | replacing a placeholder in a laid-out template fills exactly the regions that are that placeholder |
| Console.PlaceholdersDistinct | gonsole/handlers.py:101-168 | the import, function and code placeholders are three different texts |
| Console.FilledFree | gonsole/handlers.py:86-87 | text without placeholder text is left as it is |
| Console.FilledOther | gonsole/handlers.py:86-87 | filling one placeholder leaves another placeholder where it is |
| Console.FillLayout | gonsole/console.py:107-112 | with no placeholder text in the areas, each placeholder receives its own area: imports, methods and code |
| Console.ReplaceWhole | gonsole/handlers.py:86-87 | a region on its own is filled as a region |
| Console.FillOrder | gonsole/console.py:107-112 | the fill order shows: code spelling the function placeholder receives the methods, while methods spelling the code placeholder keep it |
| Console.DirectCommandLayout | gonsole/console.py:80-87 | a direct command imports `"fmt"`, declares no methods and has the print statement as code |
| Console.EntryBlocks | gonsole/handlers.py:179-181 | the blocks of the emitted fragments, one per fragment in order |
| Console.UpsertAllKeeps | gonsole/handlers.py:206-208 | declaring a fragment's names forgets no earlier declaration |
| Console.UpsertKeeps | gonsole/handlers.py:30-31 | one declaration forgets no earlier one |
| Console.Console.constructor | gonsole/console.py:23-30 | three handlers over one fresh registry, `fmt` the only declaration, nothing live, an empty code history |
| Console.Console.Inflate | gonsole/console.py:107-112 | the template is filled with the code area, then the methods, then the imports |
| Console.Console.Prepare | gonsole/console.py:95-105 | the live names become exactly `PreparedLive`: the method names mentioned by the emitted fragments, then, when every live method is declared, the packages mentioned by those fragments and methods; `KeyError` exactly when a live method is undeclared; `NotDeclaredError` exactly when there are fragments to emit and nothing is live; otherwise the filled template, which is `ProgramText` of the emitted fragments, the declarations and the new live names |
| Console.Console.Execute | gonsole/console.py:118-142 | a compiler failure rolls back the last code fragment (`IndexError` on an empty history, with the live names kept); otherwise the history stays; in both successful cases the live names are forgotten |
| Console.Console.CacheCode | gonsole/console.py:144-148 | the code handler is cleared and the statement read; an interrupt raises, running out of input waits, and neither changes the registry; a built block joins the history pinned; an `is_declared`/`get_declared_varis` error is raised with the declarations kept; a declaration declares its names to the new fragment (`UpsertAll`), leaves the live names and an empty emission list; any other statement keeps the declarations, raises `KeyError` exactly when an earlier live code name is undeclared, and otherwise makes live the closed set over what it mentions and goes on exactly when choosing the fragments succeeds (else `ValueError`), emitting exactly the fragments that need compiling; the live names are within the least closed set |
| Console.Console.AddStatement | gonsole/console.py:146-147 | the read statement joins the code handler; an `is_declared`/`get_declared_varis` error is raised with the declarations kept; a declaration declares its names to the new fragment (`UpsertAll`) and leaves the live names and emission list alone; any other statement keeps the declarations, raises `KeyError` exactly when an earlier live code name is undeclared, and otherwise makes live the closed set over what it mentions and goes on exactly when choosing the fragments succeeds (else `ValueError`), emitting exactly the fragments that need compiling |
| Console.Console.CachePackages | gonsole/console.py:156-166 | a line not ending in `(` declares its unquoted package; after `(`, a first continuation line `)` ends the turn with nothing declared, an interrupt exits the console, and any other line declares its package in a loop that never ends |
| Console.Console.CacheFunc | gonsole/console.py:150-151 | the method is read and declared under its `func` name; `AttributeError` when the opener names none; interrupts and exhausted input as for statements |
| Console.Console.ExportProgram | gonsole/console.py:89-93 | the live names become `PreparedLive` of the emitted fragments; the turn goes on, or ends with `KeyError` exactly when a live method is undeclared, or with `NotDeclaredError` exactly when there are fragments and nothing is live; the history and emission list stay |
| Console.Console.RunDirect | gonsole/console.py:56-78 | an empty program changes nothing; otherwise it runs like any program, so a failure rolls back the last code fragment or raises `IndexError` |
| Console.Console.PrepareAndExecute | gonsole/console.py:70-78 | `PreparedTurn`: the live names `prepare` leaves are `PreparedLive` when no program runs, and are forgotten when one runs; the prepared program is `ProgramText` of the emitted fragments, the declarations and those live names; `NotDeclaredError` (exactly when fragments are emitted and nothing is live) rolls the new fragment back and the turn goes on; `KeyError` (exactly when a live method is undeclared) ends the loop; a compiler failure rolls the fragment back; the pin, the emission list and the declarations stay |
| Console.Console.RunCode | gonsole/console.py:68-78 | `StatementTurn`: a statement not read to its end leaves the registry and history and clears the pin and emission list; otherwise it joins the history pinned; an `is_declared`/`get_declared_varis` error is raised as it is; a declaration declares its names to the new fragment and emits nothing; an expression raises `KeyError` exactly when an earlier live code name is undeclared, otherwise makes the closed set live (`cached`) and reaches `prepare` exactly when choosing the fragments succeeds (else `ValueError`); `prepare` and `execute` then act as `PreparedTurn` from `cached`, the program text included |
| Console.Console.ParseInput | gonsole/console.py:51-78 | each route re-exports its sub-method: an empty line and `exit` change nothing; imports and methods touch only the declarations (the `import (` cases included); direct commands run or roll back as `RunDirect`; `playground`/`export` leave the live names `PreparedLive` with the `KeyError` and `NotDeclaredError` iffs; a statement is `StatementTurn`; no turn forgets a declaration |

## Behaviour of the code worth noting

- `NotDeclaredError` is raised when there are fragments to emit and no name of any kind is live (gonsole/console.py:100-104). `Console.Console.Prepare` states this condition.
- `rollback` only pops the last fragment of the history (gonsole/handlers.py:212-213). The declarations that point at the dropped fragment stay, and so do the pin and the emission list. A later scan that reaches such a name raises `ValueError`. The model states this (`CodeHandling.CodeHandler.Rollback`, `CodeHandling.PropableParams`).
- The function handler does not scan a new function's own body when the function is declared (gonsole/handlers.py:144-146). Callees become live only through `prepare`.
- A failing direct command also rolls back the last code fragment, because `execute` always calls `_rollback` on stderr (gonsole/console.py:76-78 and 137-140). It raises `IndexError` when the history is empty.
- `KeyboardInterruptInBlock` is an `Exception`, not a `KeyboardInterrupt`, so the read loop does not catch it (gonsole/console.py:40-45). The same holds for the `KeyError` from `prepare` in `export` and `playground`. The model ends the turn with `Raised` in these cases.
- Imports are listed in the order their names became live, because `get_params` walks the live-name dictionary (gonsole/handlers.py:122-126). Methods are listed in declaration order (gonsole/handlers.py:157-160).
- `used_package_length` counts the live names of every kind, not only packages (gonsole/handlers.py:115-116).
- gonsole/console.py:11 imports `continue_input` from gonsole/utils.py, which does not define it; `cache_packages` calls it with no argument (gonsole/console.py:158).
- test/utils_test.py:6 imports `parse_block` from libs/utils.py, which defines only `parse_code`; its examples are stated against `parse_code` (`PackageTests`).

## Left out

- Input and output are parameters or are left out. This covers reading lines from the terminal, writing the program file, running `go run`, posting to the playground, and printing (gonsole/console.py:32-49, 114-142, and `_parse_err_message`). The compiler is reduced to one boolean `failed`: whether it wrote to stderr. The stdout shown to the user is not modelled.
- Console.Console.Execute, Console.Console.RunDirect, Console.Console.PrepareAndExecute: `failed` stands for a stderr that `_parse_err_message` unpacks into exactly two lines (gonsole/console.py:130). Any other non-empty stderr raises `ValueError` there, before `_rollback` and `assignment_manager.clear()` run (gonsole/console.py:126-140), and that exception ends the read loop. The model does not have this outcome.
- `AssignmentManager.instance()` and its lock are replaced by one registry object that the console creates and hands to each handler. Concurrency is not modelled.
- The module holding `GO_TEMPLATE` and `PRINTLN` is not part of this model, so `Console.Console` takes the template and the print-statement function as constructor parameters. `STANDARD_SPACE` is four spaces.
- The continuation-line callback is a finite sequence of inputs. Each typed input is the line as the reader returns it; the readers in libs/utils.py:14-15 and src/console.py:19-20 strip it. When the inputs run out, the outcome is `Waiting` (`Generator.Generated.Exhausted`). The real reader would keep returning lines.
- Console.Console.CachePackages: when the first continuation line of an `import (` batch is not `)`, the loop imports that same line again and again without reading another (gonsole/console.py:157-160). It is modelled as one import followed by `Waiting`; repeating the same assignment changes nothing more.
- `get_varis`, `get_last`, `get_all_declared`, `Block.is_func`, the unused `Console._filter_real_codes` and `Block._get_batch_declared_var` are not modelled. Nothing in the modelled core calls them.
- The state after an exception escapes the read loop is described only as far as each method's `ensures` goes. The process then exits.
- LegacyHandlers.PackageHandler.ParsePackages: Python's set iteration order is not specified, so it is a parameter (`order`) that lists every used package once.
- Regular-expression classes (`\w`, `\d`, `str.isspace`) are ASCII only. Strings are sequences of characters, with no encoding.
- Functions carry no `ensures` where the table names a partner lemma instead: the template fill (`Console.FillLayout`), `parse_codes` of the handlers (`Handlers.PackageParseCodesLines`, `CodeHandling.DeflateAllIndents`), `Blocks.Deflated` (`Blocks.DeflateIndents`).
- cmd.py and the older console variants (libs/console.py, src/console.py) are not part of this model. The older block (gonsole/block.py, libs/block.py) and the older tokenizer and package handler (libs/utils.py, src/utils.py, libs/handlers.py) are modelled where they differ.
