/**
 * `CodeHandler` of gonsole/handlers.py: the history of code fragments, the
 * fixpoint that makes live every variable a live variable's declaring block
 * mentions, the position-aware rule choosing which fragments to emit, and
 * rollback. Python compares blocks by identity; here each fragment entered
 * gets a serial number (`Entry.id`), so two entries are equal exactly when they
 * are the same fragment.
 */
module CodeHandling {
  import opened Wrappers
  import opened Text
  import opened Codes
  import opened Indent
  import opened Blocks
  import opened Registry
  import opened Handlers
  import opened Sets

  // ----- the liveness fixpoint -----

  /** `n` is live as a code variable. */
  predicate LiveCode(m: seq<(string, Kind)>, n: string)
  {
    Lookup(m, n) == Some(Code)
  }

  /** Every name declared in `decls` that some token mentions is live as code. */
  predicate Covers(m: seq<(string, Kind)>, decls: seq<(string, Payload)>, tokens: seq<string>)
  {
    forall n :: n in Keys(decls) && Mentioned(Code, n, tokens) ==> LiveCode(m, n)
  }

  /** Live code names stay live. */
  ghost predicate KeepsLive(m: seq<(string, Kind)>, m': seq<(string, Kind)>)
  {
    forall n :: LiveCode(m, n) ==> LiveCode(m', n)
  }

  /** The only changes from `m` to `m'` make a name of `decls` live as code. */
  ghost predicate GrowsWithin(m: seq<(string, Kind)>, m': seq<(string, Kind)>, decls: seq<(string, Payload)>)
  {
    forall n :: Lookup(m', n) == Lookup(m, n) || (LiveCode(m', n) && n in Keys(decls))
  }

  /** `v` is declared by a code fragment all of whose mentioned declared names are live. */
  predicate ScannedBlock(m: seq<(string, Kind)>, decls: seq<(string, Payload)>, v: string)
  {
    var p := Lookup(decls, v);
    p.Some? && p.value.CodeEntry? && Covers(m, decls, ParseToCodes(p.value.entry.block))
  }

  /** The fixpoint: every live code name is declared, and its declaring block has been scanned. */
  ghost predicate Closed(m: seq<(string, Kind)>, decls: seq<(string, Payload)>)
  {
    forall v :: LiveCode(m, v) ==> ScannedBlock(m, decls, v)
  }

  /** What holds of the live names after each step of `_scan_for_execute`. */
  ghost predicate Progress(m0: seq<(string, Kind)>, m: seq<(string, Kind)>, decls: seq<(string, Payload)>,
                     scanned: set<string>, pinnedTokens: seq<string>)
  {
    KeepsLive(m0, m) && GrowsWithin(m0, m, decls) && Covers(m, decls, pinnedTokens)
    && forall v :: v in scanned ==> LiveCode(m, v) && ScannedBlock(m, decls, v)
  }

  /** The tokens of the fragment declaring `v`, none when `v` has no code declaration. */
  function DeclTokens(decls: seq<(string, Payload)>, v: string): seq<string>
  {
    var p := Lookup(decls, v);
    if p.Some? && p.value.CodeEntry? then ParseToCodes(p.value.entry.block) else []
  }

  /**
   * `S` holds the names live as code before the scan, every declared name the
   * pinned block mentions, and every declared name mentioned by the declaring
   * fragment of a name in `S`.
   */
  ghost predicate ClosedOver(S: set<string>, m0: seq<(string, Kind)>, decls: seq<(string, Payload)>, pinnedTokens: seq<string>)
  {
    (forall n :: LiveCode(m0, n) ==> n in S)
    && (forall n :: n in Keys(decls) && Mentioned(Code, n, pinnedTokens) ==> n in S)
    && (forall v, n :: v in S && n in Keys(decls) && Mentioned(Code, n, DeclTokens(decls, v)) ==> n in S)
  }

  /**
   * The least-fixpoint bound: every name live in `m` lies in every set closed
   * over the scan, so nothing is made live that the pinned block does not
   * reach through declaring fragments.
   */
  ghost predicate Least(m: seq<(string, Kind)>, m0: seq<(string, Kind)>, decls: seq<(string, Payload)>, pinnedTokens: seq<string>)
  {
    forall S :: ClosedOver(S, m0, decls, pinnedTokens) ==> forall n :: LiveCode(m, n) ==> n in S
  }

  /** Before any scan only the names already live are live. */
  lemma LeastStart(m0: seq<(string, Kind)>, decls: seq<(string, Payload)>, pinnedTokens: seq<string>)
    ensures Least(m0, m0, decls, pinnedTokens)
  {
  }

  /** Scanning the pinned block, or the declaring fragment of a live name, keeps the bound. */
  lemma LeastScan(m: seq<(string, Kind)>, m0: seq<(string, Kind)>, decls: seq<(string, Payload)>, pinnedTokens: seq<string>,
                  tokens: seq<string>, v: Option<string>)
    requires Least(m, m0, decls, pinnedTokens)
    requires v.None? ==> tokens == pinnedTokens
    requires v.Some? ==> LiveCode(m, v.value) && tokens == DeclTokens(decls, v.value)
    ensures Least(ScanTokens(m, Code, Keys(decls), tokens), m0, decls, pinnedTokens)
  {
    var m' := ScanTokens(m, Code, Keys(decls), tokens);
    forall S | ClosedOver(S, m0, decls, pinnedTokens)
      ensures forall n :: LiveCode(m', n) ==> n in S
    {
      forall n | LiveCode(m', n)
        ensures n in S
      {
        ScanTokensLookup(m, Code, Keys(decls), tokens, n);
      }
    }
  }

  /** One `scan` under the code kind makes live what the tokens mention and changes nothing else. */
  lemma ScanCodeEffect(m: seq<(string, Kind)>, decls: seq<(string, Payload)>, tokens: seq<string>)
    ensures var m' := ScanTokens(m, Code, Keys(decls), tokens);
      Covers(m', decls, tokens) && KeepsLive(m, m') && GrowsWithin(m, m', decls)
  {
    var m' := ScanTokens(m, Code, Keys(decls), tokens);
    forall n ensures Lookup(m', n) == if n in Keys(decls) && Mentioned(Code, n, tokens) then Some(Code) else Lookup(m, n) {
      ScanTokensLookup(m, Code, Keys(decls), tokens, n);
    }
  }

  /** Further scanning keeps the progress made so far. */
  lemma ProgressKeeps(m0: seq<(string, Kind)>, m: seq<(string, Kind)>, m': seq<(string, Kind)>,
                      decls: seq<(string, Payload)>, scanned: set<string>, pinnedTokens: seq<string>)
    requires Progress(m0, m, decls, scanned, pinnedTokens)
    requires KeepsLive(m, m') && GrowsWithin(m, m', decls)
    ensures Progress(m0, m', decls, scanned, pinnedTokens)
  {
    forall v | v in scanned ensures ScannedBlock(m', decls, v) {
      assert ScannedBlock(m, decls, v);
    }
  }

  /** A live name whose block has just been scanned joins the scanned names. */
  lemma ProgressAdd(m0: seq<(string, Kind)>, m: seq<(string, Kind)>, decls: seq<(string, Payload)>,
                    scanned: set<string>, pinnedTokens: seq<string>, v: string)
    requires Progress(m0, m, decls, scanned, pinnedTokens)
    requires LiveCode(m, v) && ScannedBlock(m, decls, v)
    ensures Progress(m0, m, decls, scanned + {v}, pinnedTokens)
  {
  }

  /** A name live during the scan was a key before it, or is declared. */
  lemma LiveWithin(m0: seq<(string, Kind)>, m: seq<(string, Kind)>, decls: seq<(string, Payload)>, n: string, u: set<string>)
    requires GrowsWithin(m0, m, decls) && LiveCode(m, n)
    requires u == Candidates(m0, decls)
    ensures n in u
  {
  }

  /** The names that can become live during the scan: those already keys, and the declared ones. */
  function Candidates(m0: seq<(string, Kind)>, decls: seq<(string, Payload)>): set<string>
  {
    (set n | n in Keys(m0)) + (set n | n in Keys(decls))
  }

  lemma GrowWithin(s: set<string>, s': set<string>, u: set<string>, x: string)
    requires s <= s' <= u && x in u
    ensures s <= s' + {x} <= u
  {
  }

  lemma PrefixAdded(used: seq<string>, j: nat, s: set<string>)
    requires j < |used| && forall k :: 0 <= k < j ==> used[k] in s
    ensures forall k :: 0 <= k < j + 1 ==> used[k] in s + {used[j]}
  {
  }

  /** Adding a new element of a finite set to a subset of it shrinks what is left. */
  lemma {:induction false} LeftShrinks(u: set<string>, s: set<string>, s': set<string>, x: string)
    requires s <= s' && x in u && x !in s && x in s'
    ensures |u - s'| < |u - s|
  {
    assert u - s' <= (u - s) - {x};
    SubsetSize(u - s', (u - s) - {x});
  }

  /** The names of `names` not yet scanned: `set(get_params()) - scanned_varis`, kept in the order of `names`. */
  function Unscanned(names: seq<string>, scanned: set<string>): (r: seq<string>)
    ensures forall n :: n in r <==> n in names && n !in scanned
  {
    if names == [] then []
    else (if names[0] in scanned then [] else [names[0]]) + Unscanned(names[1..], scanned)
  }

  /**
   * The scanning part of `_scan_for_execute`: the pinned block is scanned, then
   * the declaring block of every live code name not scanned yet, round after
   * round, until no live code name is left unscanned. It fails with `KeyError`
   * exactly when a name live as code before the call is not declared as code;
   * otherwise the live names reach the fixpoint and nothing else changes.
   */
  method ScanClosure(reg: AssignmentManager, pinned: Block) returns (r: Result<()>)
    requires reg.Valid()
    modifies reg
    ensures reg.Valid() && reg.declaredParams == old(reg.declaredParams)
    ensures var decls := DeclaredOf(reg.declaredParams, Code);
      r.Ok? <==> forall n :: LiveCode(old(reg.assignedParams), n) ==> n in Keys(decls)
    ensures r.Err? ==> r.error == KeyError
    ensures var decls := DeclaredOf(reg.declaredParams, Code);
      r.Ok? ==> (Closed(reg.assignedParams, decls) && Covers(reg.assignedParams, decls, ParseToCodes(pinned))
        && KeepsLive(old(reg.assignedParams), reg.assignedParams)
        && GrowsWithin(old(reg.assignedParams), reg.assignedParams, decls))
    ensures Least(reg.assignedParams, old(reg.assignedParams), DeclaredOf(reg.declaredParams, Code), ParseToCodes(pinned))
  {
    ghost var m0 := reg.assignedParams;
    // `get_declared()` is read again for every name in the source; the declarations do not change meanwhile
    var decls := reg.GetDeclared(Code);
    ghost var pinnedTokens := ParseToCodes(pinned);
    Scan(reg, Code, pinned);
    ScanCodeEffect(m0, decls, pinnedTokens);
    LeastStart(m0, decls, pinnedTokens);
    LeastScan(m0, m0, decls, pinnedTokens, pinnedTokens, None);
    ghost var u := Candidates(m0, decls);
    var scanned: set<string> := {};
    var live := reg.GetAssigned(Code);
    UnscannedLive(reg.assignedParams, scanned);
    var used := Unscanned(live, scanned);
    while used != []
      invariant reg.Valid() && reg.declaredParams == old(reg.declaredParams)
      invariant Progress(m0, reg.assignedParams, decls, scanned, pinnedTokens)
      invariant Least(reg.assignedParams, m0, decls, pinnedTokens)
      invariant scanned <= u
      invariant forall n :: n in used <==> LiveCode(reg.assignedParams, n) && n !in scanned
      decreases |u - scanned|
    {
      ghost var before := scanned;
      LiveWithin(m0, reg.assignedParams, decls, used[0], u);
      r, scanned := ScanRound(reg, decls, used, scanned, m0, pinnedTokens, u);
      if r.Err? {
        return;
      }
      LeftShrinks(u, before, scanned, used[0]);
      live := reg.GetAssigned(Code);
      UnscannedLive(reg.assignedParams, scanned);
      used := Unscanned(live, scanned);
    }
    return Ok(());
  }

  /** The live code names not scanned yet, as `get_params()` lists them. */
  lemma UnscannedLive(m: seq<(string, Kind)>, scanned: set<string>)
    requires UniqueKeys(m)
    ensures forall n :: n in Unscanned(NamesOf(m, Code), scanned) <==> LiveCode(m, n) && n !in scanned
  {
    forall n ensures n in NamesOf(m, Code) <==> LiveCode(m, n) {
      NamesOfMembers(m, Code, n);
    }
  }

  /** One round of `scan_used_codes`: the declaring block of each name of `used` is scanned in turn. */
  method ScanRound(reg: AssignmentManager, decls: seq<(string, Payload)>, used: seq<string>, scanned: set<string>,
                   ghost m0: seq<(string, Kind)>, ghost pinnedTokens: seq<string>, ghost u: set<string>)
    returns (r: Result<()>, scanned': set<string>)
    requires reg.Valid() && decls == DeclaredOf(reg.declaredParams, Code)
    requires Progress(m0, reg.assignedParams, decls, scanned, pinnedTokens)
    requires forall n :: n in used ==> LiveCode(reg.assignedParams, n)
    requires u == Candidates(m0, decls) && scanned <= u
    requires Least(reg.assignedParams, m0, decls, pinnedTokens)
    modifies reg
    ensures reg.Valid() && reg.declaredParams == old(reg.declaredParams)
    ensures Least(reg.assignedParams, m0, decls, pinnedTokens)
    ensures r.Ok? ==> Progress(m0, reg.assignedParams, decls, scanned', pinnedTokens)
    ensures r.Ok? ==> scanned <= scanned' <= u && forall n :: n in used ==> n in scanned'
    ensures r.Err? ==> r.error == KeyError && exists n :: LiveCode(m0, n) && n !in Keys(decls)
  {
    scanned' := scanned;
    var j := 0;
    while j < |used|
      invariant 0 <= j <= |used|
      invariant reg.Valid() && reg.declaredParams == old(reg.declaredParams)
      invariant Progress(m0, reg.assignedParams, decls, scanned', pinnedTokens)
      invariant Least(reg.assignedParams, m0, decls, pinnedTokens)
      invariant scanned <= scanned' <= u
      invariant forall n :: n in used ==> LiveCode(reg.assignedParams, n)
      invariant forall k :: 0 <= k < j ==> used[k] in scanned'
    {
      var vari := used[j];
      LiveWithin(m0, reg.assignedParams, decls, vari, u);
      GrowWithin(scanned, scanned', u, vari);
      PrefixAdded(used, j, scanned');
      r := ScanOne(reg, decls, vari, scanned', m0, pinnedTokens);
      scanned' := scanned' + {vari};
      if r.Err? {
        return;
      }
      j := j + 1;
    }
    r := Ok(());
  }

  /** The body of the loop of `scan_used_codes`: `scan(get_declared()[vari])`. */
  method ScanOne(reg: AssignmentManager, decls: seq<(string, Payload)>, vari: string, scanned: set<string>,
                 ghost m0: seq<(string, Kind)>, ghost pinnedTokens: seq<string>)
    returns (r: Result<()>)
    requires reg.Valid() && decls == DeclaredOf(reg.declaredParams, Code)
    requires Progress(m0, reg.assignedParams, decls, scanned, pinnedTokens)
    requires LiveCode(reg.assignedParams, vari)
    requires Least(reg.assignedParams, m0, decls, pinnedTokens)
    modifies reg
    ensures reg.Valid() && reg.declaredParams == old(reg.declaredParams)
    ensures Least(reg.assignedParams, m0, decls, pinnedTokens)
    ensures r.Ok? ==> Progress(m0, reg.assignedParams, decls, scanned + {vari}, pinnedTokens)
    ensures r.Ok? ==> KeepsLive(old(reg.assignedParams), reg.assignedParams)
    ensures r.Err? <==> vari !in Keys(decls)
    ensures r.Err? ==> r.error == KeyError && LiveCode(m0, vari)
  {
    var found := Lookup(decls, vari);
    if found.None? {
      assert Lookup(reg.assignedParams, vari) == Lookup(m0, vari);
      return Err(KeyError);
    }
    assert (vari, found.value) in decls;
    ghost var m := reg.assignedParams;
    Scan(reg, Code, found.value.entry.block);
    ScanCodeEffect(m, decls, ParseToCodes(found.value.entry.block));
    ProgressKeeps(m0, m, reg.assignedParams, decls, scanned, pinnedTokens);
    ProgressAdd(m0, reg.assignedParams, decls, scanned, pinnedTokens, vari);
    LeastScan(m, m0, decls, pinnedTokens, ParseToCodes(found.value.entry.block), Some(vari));
    r := Ok(());
  }

  // ----- the emission rule -----

  /** Every name of `get_params()` is live as code. */
  lemma LiveNames(m: seq<(string, Kind)>)
    requires UniqueKeys(m)
    ensures forall n :: n in NamesOf(m, Code) <==> LiveCode(m, n)
  {
    forall n ensures n in NamesOf(m, Code) <==> LiveCode(m, n) {
      NamesOfMembers(m, Code, n);
    }
  }

  /** `xs.index(x)`: the first position of `x`; `None` where Python raises `ValueError`. */
  function IndexOf(xs: seq<Entry>, x: Entry): (r: Option<nat>)
    ensures r.None? <==> x !in xs
    ensures r.Some? ==> r.value < |xs| && xs[r.value] == x && x !in xs[..r.value]
  {
    if xs == [] then None
    else if xs[0] == x then Some(0)
    else match IndexOf(xs[1..], x)
      case None => None
      case Some(i) =>
        assert xs[..i + 1] == [xs[0]] + xs[1..][..i];
        Some(i + 1)
  }

  /** `n` is declared by a fragment that is still in the history. */
  predicate Placed(history: seq<Entry>, decls: seq<(string, Payload)>, n: string)
  {
    var p := Lookup(decls, n);
    p.Some? && p.value.CodeEntry? && p.value.entry in history
  }

  /** The history position of the fragment declaring `n`. */
  function DeclPosition(history: seq<Entry>, decls: seq<(string, Payload)>, n: string): nat
    requires Placed(history, decls, n)
  {
    IndexOf(history, Lookup(decls, n).value.entry).value
  }

  /**
   * `get_propable_params(block)`, as `list` collects it: the names whose
   * declaring fragment sits at or before `b` in the history, in the order of
   * `names`. A name with no declaration raises `KeyError`; a declaring fragment
   * or a `b` missing from the history raises `ValueError`; the first failing
   * name decides.
   */
  function PropableParams(history: seq<Entry>, decls: seq<(string, Payload)>, names: seq<string>, b: Entry): (r: Result<seq<string>>)
    ensures r.Ok? <==> forall n :: n in names ==> Placed(history, decls, n) && b in history
    ensures r.Err? ==> r.error == KeyError || r.error == ValueError
    ensures r.Err? && r.error == KeyError ==> exists n :: n in names && n !in Keys(decls)
  {
    if names == [] then Ok([])
    else
      var p := Lookup(decls, names[0]);
      assert names[0] in names;
      assert forall n :: n in names[1..] ==> n in names;
      if p.None? then Err(KeyError)
      else if !p.value.CodeEntry? || p.value.entry !in history || b !in history then Err(ValueError)
      else match PropableParams(history, decls, names[1..], b)
        case Err(e) => Err(e)
        case Ok(rest) =>
          var keep := IndexOf(history, p.value.entry).value <= IndexOf(history, b).value;
          Ok((if keep then [names[0]] else []) + rest)
  }

  /**
   * What `get_propable_params` lets through: a subsequence of `names` holding
   * exactly the names declared at or before `b` in the history.
   */
  lemma {:induction false} PropableParamsKept(history: seq<Entry>, decls: seq<(string, Payload)>, names: seq<string>, b: Entry)
    requires PropableParams(history, decls, names, b).Ok?
    ensures var r := PropableParams(history, decls, names, b).value;
      IsSubsequence(r, names) && (forall n :: n in r ==> n in names)
      && forall n :: n in names ==> (n in r <==> DeclPosition(history, decls, n) <= IndexOf(history, b).value)
  {
    if names != [] {
      assert names[0] in names;
      assert forall n :: n in names[1..] ==> n in names;
      PropableParamsKept(history, decls, names[1..], b);
      var p := Lookup(decls, names[0]);
      var rest := PropableParams(history, decls, names[1..], b).value;
      var keep := IndexOf(history, p.value.entry).value <= IndexOf(history, b).value;
      assert names == [names[0]] + names[1..];
      SubsequenceStep(names[0], keep, rest, names[1..]);
      assert forall n :: n in names ==> n == names[0] || n in names[1..];
    }
  }

  /** Some token starts with some name of `params`: the two `any` of `need_compile`. */
  function AnyMentioned(params: seq<string>, tokens: seq<string>): (r: bool)
    ensures r <==> exists n :: n in params && Mentioned(Code, n, tokens)
  {
    params != [] && (Mentioned(Code, params[0], tokens) || AnyMentioned(params[1..], tokens))
  }

  /**
   * `need_compile(block)`: true for the pinned fragment; for any other, true
   * exactly when one of its tokens starts with a live code name declared at or
   * before it in the history. Errors are those of `get_propable_params`.
   */
  function NeedCompile(history: seq<Entry>, pinned: Option<Entry>, m: seq<(string, Kind)>,
                       decls: seq<(string, Payload)>, b: Entry): (r: Result<bool>)
    requires UniqueKeys(m)
    ensures pinned == Some(b) ==> r == Ok(true)
    ensures pinned != Some(b) ==> (r.Ok? <==> forall n :: LiveCode(m, n) ==> Placed(history, decls, n) && b in history)
    ensures r.Err? ==> r.error == KeyError || r.error == ValueError
    ensures r.Err? && r.error == KeyError ==> exists n :: LiveCode(m, n) && n !in Keys(decls)
    ensures r.Ok? && pinned != Some(b) ==> (r.value <==>
      exists n :: LiveCode(m, n) && Placed(history, decls, n) && b in history
        && DeclPosition(history, decls, n) <= IndexOf(history, b).value && Mentioned(Code, n, ParseToCodes(b.block)))
  {
    if pinned == Some(b) then Ok(true)
    else
      LiveNames(m);
      match PropableParams(history, decls, NamesOf(m, Code), b)
      case Err(e) => Err(e)
      case Ok(params) =>
        NeedCompileMeaning(history, decls, m, params, b);
        Ok(AnyMentioned(params, ParseToCodes(b.block)))
  }

  /** The names `get_propable_params` lets through are the live ones declared at or before `b`. */
  lemma NeedCompileMeaning(history: seq<Entry>, decls: seq<(string, Payload)>, m: seq<(string, Kind)>, params: seq<string>, b: Entry)
    requires UniqueKeys(m)
    requires PropableParams(history, decls, NamesOf(m, Code), b) == Ok(params)
    ensures AnyMentioned(params, ParseToCodes(b.block)) <==>
      exists n :: LiveCode(m, n) && Placed(history, decls, n) && b in history
        && DeclPosition(history, decls, n) <= IndexOf(history, b).value && Mentioned(Code, n, ParseToCodes(b.block))
  {
    LiveNames(m);
    PropableParamsKept(history, decls, NamesOf(m, Code), b);
    var tokens := ParseToCodes(b.block);
    if AnyMentioned(params, tokens) {
      var n :| n in params && Mentioned(Code, n, tokens);
      assert LiveCode(m, n) && Placed(history, decls, n);
    }
    if exists n :: LiveCode(m, n) && Placed(history, decls, n) && b in history
        && DeclPosition(history, decls, n) <= IndexOf(history, b).value && Mentioned(Code, n, tokens) {
      var n :| LiveCode(m, n) && Placed(history, decls, n) && b in history
        && DeclPosition(history, decls, n) <= IndexOf(history, b).value && Mentioned(Code, n, tokens);
      assert n in NamesOf(m, Code);
      assert n in params;
    }
  }

  /**
   * `_generate_execute_blocks` over `todo`: the fragments that need compiling,
   * in history order; the first fragment whose check fails raises its error.
   */
  function ExecuteBlocks(history: seq<Entry>, pinned: Option<Entry>, m: seq<(string, Kind)>,
                         decls: seq<(string, Payload)>, todo: seq<Entry>): (r: Result<seq<Entry>>)
    requires UniqueKeys(m)
    ensures r.Ok? <==> forall i :: 0 <= i < |todo| ==> NeedCompile(history, pinned, m, decls, todo[i]).Ok?
    ensures r.Err? ==> exists i :: 0 <= i < |todo| && NeedCompile(history, pinned, m, decls, todo[i]) == Err(r.error)
  {
    if todo == [] then Ok([])
    else match NeedCompile(history, pinned, m, decls, todo[0])
      case Err(e) => Err(e)
      case Ok(need) =>
        match ExecuteBlocks(history, pinned, m, decls, todo[1..])
        case Err(e) => Err(e)
        case Ok(rest) =>
          assert forall i :: 1 <= i < |todo| ==> todo[i] == todo[1..][i - 1];
          Ok((if need then [todo[0]] else []) + rest)
  }

  /**
   * The fragments `_generate_execute_blocks` keeps: a subsequence of `todo`
   * holding exactly those that need compiling.
   */
  lemma {:induction false} ExecuteBlocksKept(history: seq<Entry>, pinned: Option<Entry>, m: seq<(string, Kind)>,
                                             decls: seq<(string, Payload)>, todo: seq<Entry>)
    requires UniqueKeys(m)
    requires ExecuteBlocks(history, pinned, m, decls, todo).Ok?
    ensures var r := ExecuteBlocks(history, pinned, m, decls, todo).value;
      IsSubsequence(r, todo) && forall e :: e in r <==> e in todo && NeedCompile(history, pinned, m, decls, e) == Ok(true)
  {
    if todo != [] {
      assert todo == [todo[0]] + todo[1..];
      assert forall e :: e in todo <==> e == todo[0] || e in todo[1..];
      ExecuteBlocksKept(history, pinned, m, decls, todo[1..]);
      var need := NeedCompile(history, pinned, m, decls, todo[0]).value;
      var rest := ExecuteBlocks(history, pinned, m, decls, todo[1..]).value;
      SubsequenceStep(todo[0], need, rest, todo[1..]);
    }
  }

  /** Once every live code name is declared, choosing the fragments can fail only with `ValueError`. */
  lemma NoKeyErrorWhenDeclared(history: seq<Entry>, pinned: Option<Entry>, m: seq<(string, Kind)>,
                               decls: seq<(string, Payload)>, todo: seq<Entry>)
    requires UniqueKeys(m)
    requires forall n :: LiveCode(m, n) ==> n in Keys(decls)
    ensures ExecuteBlocks(history, pinned, m, decls, todo).Err? ==> ExecuteBlocks(history, pinned, m, decls, todo).error == ValueError
  {
    var r := ExecuteBlocks(history, pinned, m, decls, todo);
    if r.Err? {
      var i :| 0 <= i < |todo| && NeedCompile(history, pinned, m, decls, todo[i]) == Err(r.error);
    }
  }

  /**
   * A declared name that neither the pinned block nor the declaring fragment of
   * any other name mentions is not made live, when nothing was live before:
   * every live name is then declared and differs from it.
   */
  lemma UnmentionedStaysDead(m0: seq<(string, Kind)>, m: seq<(string, Kind)>, decls: seq<(string, Payload)>,
                             pinnedTokens: seq<string>, c: string)
    requires forall n :: !LiveCode(m0, n)
    requires Least(m, m0, decls, pinnedTokens)
    requires !Mentioned(Code, c, pinnedTokens)
    requires forall v :: v in Keys(decls) && v != c ==> !Mentioned(Code, c, DeclTokens(decls, v))
    ensures forall n :: LiveCode(m, n) ==> n in Keys(decls) && n != c
  {
    var S := set n | n in Keys(decls) && n != c;
    assert ClosedOver(S, m0, decls, pinnedTokens);
  }

  /**
   * What the least fixpoint buys, on the shape of `a := 1`, `b := a`, `c := 2`
   * followed by a statement using `b`: nothing was live before; `b` is used by
   * the pinned statement, `a` by the fragment declaring `b`, and `c` by no
   * fragment but its own. Then `a` and `b` are live, `c` is not, the fragments
   * declaring `a` and `b` are emitted and the one declaring `c` is dropped.
   */
  lemma {:induction false} UnusedFragmentDropped(history: seq<Entry>, pinned: Entry, m0: seq<(string, Kind)>, m: seq<(string, Kind)>,
                                                 decls: seq<(string, Payload)>, a: string, b: string, c: string,
                                                 A: Entry, B: Entry, C: Entry, blocks: seq<Entry>)
    requires UniqueKeys(m) && forall n :: !LiveCode(m0, n)
    requires Closed(m, decls) && Covers(m, decls, ParseToCodes(pinned.block))
    requires Least(m, m0, decls, ParseToCodes(pinned.block))
    requires Lookup(decls, a) == Some(CodeEntry(A)) && Lookup(decls, b) == Some(CodeEntry(B))
    requires Lookup(decls, c) == Some(CodeEntry(C))
    requires A in history && B in history && C in history && C != pinned
    requires Mentioned(Code, b, ParseToCodes(pinned.block)) && !Mentioned(Code, c, ParseToCodes(pinned.block))
    requires Mentioned(Code, a, ParseToCodes(A.block)) && Mentioned(Code, b, ParseToCodes(B.block))
    requires Mentioned(Code, a, ParseToCodes(B.block))
    requires forall n :: n in Keys(decls) && Mentioned(Code, n, ParseToCodes(C.block)) ==> n == c
    requires forall v :: v in Keys(decls) && v != c ==> !Mentioned(Code, c, DeclTokens(decls, v))
    requires ExecuteBlocks(history, Some(pinned), m, decls, history) == Ok(blocks)
    ensures LiveCode(m, a) && LiveCode(m, b) && !LiveCode(m, c)
    ensures A in blocks && B in blocks && C !in blocks
  {
    assert ScannedBlock(m, decls, b);
    UnmentionedStaysDead(m0, m, decls, ParseToCodes(pinned.block), c);
    ExecuteBlocksKept(history, Some(pinned), m, decls, history);
    EmittedWhenUsed(history, Some(pinned), m, decls, a, A, blocks);
    EmittedWhenUsed(history, Some(pinned), m, decls, b, B, blocks);
    DroppedWhenUnused(history, Some(pinned), m, decls, C, blocks);
  }

  /** A fragment of the history mentioning a live name it declares is emitted. */
  lemma EmittedWhenUsed(history: seq<Entry>, pinned: Option<Entry>, m: seq<(string, Kind)>, decls: seq<(string, Payload)>,
                        a: string, A: Entry, blocks: seq<Entry>)
    requires UniqueKeys(m) && ExecuteBlocks(history, pinned, m, decls, history) == Ok(blocks)
    requires LiveCode(m, a) && Lookup(decls, a) == Some(CodeEntry(A)) && A in history
    requires Mentioned(Code, a, ParseToCodes(A.block))
    ensures A in blocks
  {
    ExecuteBlocksKept(history, pinned, m, decls, history);
    var i :| 0 <= i < |history| && history[i] == A;
    assert NeedCompile(history, pinned, m, decls, A).Ok?;
  }

  /** A fragment other than the pinned one that mentions no live name is dropped. */
  lemma DroppedWhenUnused(history: seq<Entry>, pinned: Option<Entry>, m: seq<(string, Kind)>, decls: seq<(string, Payload)>,
                          C: Entry, blocks: seq<Entry>)
    requires UniqueKeys(m) && ExecuteBlocks(history, pinned, m, decls, history) == Ok(blocks)
    requires pinned != Some(C)
    requires forall n :: LiveCode(m, n) ==> !Mentioned(Code, n, ParseToCodes(C.block))
    ensures C !in blocks
  {
    ExecuteBlocksKept(history, pinned, m, decls, history);
    if C in history {
      var i :| 0 <= i < |history| && history[i] == C;
      assert NeedCompile(history, pinned, m, decls, C).Ok?;
    }
  }

  // ----- declarations and rendering -----

  /** The declarations after `add_declared(name, e)` for each name in turn. */
  function UpsertAll(d: seq<(string, Payload)>, names: seq<string>, p: Payload): seq<(string, Payload)>
  {
    if names == [] then d else Upsert(UpsertAll(d, names[..|names| - 1], p), Last(names), p)
  }

  /** Each of the names is declared by `p`; every other declaration is untouched. */
  lemma {:induction false} UpsertAllLookup(d: seq<(string, Payload)>, names: seq<string>, p: Payload, n: string)
    ensures Lookup(UpsertAll(d, names, p), n) == if n in names then Some(p) else Lookup(d, n)
  {
    if names != [] {
      var init := names[..|names| - 1];
      assert n in names <==> n in init || n == Last(names) by {
        assert names == init + [Last(names)];
      }
      var prev := UpsertAll(d, init, p);
      UpsertAllLookup(d, init, p, n);
      UpsertLookup(prev, Last(names), p, n);
    }
  }

  /** `add_declareds`: `add_declared(vari, e)` for every declared name, in order. */
  method DeclareAll(reg: AssignmentManager, names: seq<string>, e: Entry)
    requires reg.Valid()
    modifies reg
    ensures reg.Valid() && reg.assignedParams == old(reg.assignedParams)
    ensures reg.declaredParams == UpsertAll(old(reg.declaredParams), names, CodeEntry(e))
  {
    var i := 0;
    while i < |names|
      invariant 0 <= i <= |names|
      invariant reg.Valid() && reg.assignedParams == old(reg.assignedParams)
      invariant reg.declaredParams == UpsertAll(old(reg.declaredParams), names[..i], CodeEntry(e))
    {
      assert names[..i + 1][..i] == names[..i];
      reg.AddDeclared(names[i], CodeEntry(e));
      i := i + 1;
    }
    assert names[..i] == names;
  }

  /** The code area for the emitted fragments `es`: their deflated lines, one per line. */
  function CodeText(es: seq<Entry>): string
  {
    Join(DeflateAll(es), "\n")
  }

  /** The lines of every fragment, each deflated by one unit, fragment after fragment. */
  function DeflateAll(es: seq<Entry>): seq<string>
  {
    if es == [] then [] else DeflateAll(es[..|es| - 1]) + Deflated(Last(es).block, 1)
  }

  /** The literal lines of every fragment, fragment after fragment. */
  function FlattenAll(es: seq<Entry>): seq<string>
  {
    if es == [] then [] else FlattenAll(es[..|es| - 1]) + Flatten(Last(es).block)
  }

  /** The nesting depth of every literal line, fragment after fragment. */
  function DepthsAll(es: seq<Entry>): seq<nat>
  {
    if es == [] then [] else DepthsAll(es[..|es| - 1]) + Depths(Last(es).block)
  }

  /** The code area holds every literal line of the emitted fragments, one unit deeper than its depth. */
  lemma {:induction false} DeflateAllIndents(es: seq<Entry>)
    ensures IndentedAs(DeflateAll(es), FlattenAll(es), DepthsAll(es), 1)
  {
    if es != [] {
      var init := es[..|es| - 1];
      DeflateAllIndents(init);
      DeflateIndents(Last(es).block, 1);
      IndentedAsAppend(DeflateAll(init), FlattenAll(init), DepthsAll(init),
        Deflated(Last(es).block, 1), Flatten(Last(es).block), Depths(Last(es).block), 1);
    }
  }

  /** `_deflate_block(blocks)`: extends a list with `deflate(1)` of each fragment. */
  method DeflateBlocks(blocks: seq<Entry>) returns (lines: seq<string>)
    ensures lines == DeflateAll(blocks)
  {
    lines := [];
    var i := 0;
    while i < |blocks|
      invariant 0 <= i <= |blocks|
      invariant lines == DeflateAll(blocks[..i])
    {
      assert blocks[..i + 1][..i] == blocks[..i];
      var more := Deflate(blocks[i].block, 1);
      lines := lines + more;
      i := i + 1;
    }
    assert blocks[..i] == blocks;
  }

  // ----- the handler -----

  class CodeHandler {
    const reg: AssignmentManager
    /** `_blocks`: every fragment entered and not rolled back, oldest first. */
    var history: seq<Entry>
    /** `_pre_executed`: the fragment entered last, until `clear`. */
    var pinned: Option<Entry>
    /** `_execute_blocks`: the fragments to emit. */
    var executeBlocks: seq<Entry>
    /** The serial number of the next fragment; every fragment entered so far has a smaller one. */
    var nextId: nat

    ghost predicate Valid()
      reads this, reg
    {
      reg.Valid() && forall e :: e in history ==> e.id < nextId
    }

    constructor(reg: AssignmentManager)
      requires reg.Valid()
      ensures this.reg == reg && Valid()
      ensures history == [] && pinned == None && executeBlocks == []
    {
      this.reg := reg;
      history := [];
      pinned := None;
      executeBlocks := [];
      nextId := 0;
    }

    /**
     * `_scan_for_execute`: the fixpoint scan from the pinned fragment, then the
     * new emission list. `KeyError` exactly when a name live as code before the
     * call is not declared as code; `ValueError` when a live name's declaring
     * fragment has been rolled back; the emission list changes only on success.
     */
    method ScanForExecute() returns (r: Result<()>)
      requires Valid() && pinned.Some?
      modifies this, reg
      ensures Valid() && reg.declaredParams == old(reg.declaredParams)
      ensures history == old(history) && pinned == old(pinned) && nextId == old(nextId)
      ensures var decls := DeclaredOf(reg.declaredParams, Code);
        r == Err(KeyError) <==> exists n :: LiveCode(old(reg.assignedParams), n) && n !in Keys(decls)
      ensures r.Err? ==> (r.error == KeyError || r.error == ValueError) && executeBlocks == old(executeBlocks)
      ensures var decls := DeclaredOf(reg.declaredParams, Code);
        r != Err(KeyError) ==> (Closed(reg.assignedParams, decls) && Covers(reg.assignedParams, decls, ParseToCodes(pinned.value.block))
          && KeepsLive(old(reg.assignedParams), reg.assignedParams)
          && GrowsWithin(old(reg.assignedParams), reg.assignedParams, decls)
          && (r.Ok? <==> ExecuteBlocks(history, pinned, reg.assignedParams, decls, history).Ok?))
      ensures var decls := DeclaredOf(reg.declaredParams, Code);
        r.Ok? ==> Ok(executeBlocks) == ExecuteBlocks(history, pinned, reg.assignedParams, decls, history)
      ensures Least(reg.assignedParams, old(reg.assignedParams), DeclaredOf(reg.declaredParams, Code), ParseToCodes(pinned.value.block))
    {
      r := ScanClosure(reg, pinned.value.block);
      if r.Err? {
        return;
      }
      var decls := reg.GetDeclared(Code);
      NoKeyErrorWhenDeclared(history, pinned, reg.assignedParams, decls, history);
      var blocks := ExecuteBlocks(history, pinned, reg.assignedParams, decls, history);
      if blocks.Err? {
        return Err(blocks.error);
      }
      executeBlocks := blocks.value;
    }

    /**
     * `add(block)`: the fragment joins the history and is pinned. A declaration
     * registers each name it declares to it and scans nothing; any other
     * fragment runs `_scan_for_execute`. `is_declared` and
     * `get_declared_varis` raise what they raise.
     */
    method Add(block: Block) returns (r: Result<()>)
      requires Valid()
      modifies this, reg
      ensures Valid()
      ensures var e := Entry(old(nextId), block);
        e !in old(history) && history == old(history) + [e] && pinned == Some(e) && nextId == old(nextId) + 1
      ensures IsDeclared(block).Err? ==> (r == Err(IsDeclared(block).error) && executeBlocks == old(executeBlocks)
        && reg.assignedParams == old(reg.assignedParams) && reg.declaredParams == old(reg.declaredParams))
      ensures IsDeclared(block) == Ok(true) ==> reg.assignedParams == old(reg.assignedParams) && executeBlocks == old(executeBlocks)
      ensures IsDeclared(block) == Ok(true) && BlockNames(block).Err? ==> (r == Err(BlockNames(block).error)
        && reg.declaredParams == old(reg.declaredParams))
      ensures IsDeclared(block) == Ok(true) && BlockNames(block).Ok? ==> (r == Ok(())
        && reg.declaredParams == UpsertAll(old(reg.declaredParams), BlockNames(block).value, CodeEntry(Entry(old(nextId), block))))
      ensures IsDeclared(block) == Ok(false) ==> reg.declaredParams == old(reg.declaredParams)
      ensures var decls := DeclaredOf(reg.declaredParams, Code);
        IsDeclared(block) == Ok(false) ==>
          (r == Err(KeyError) <==> exists n :: LiveCode(old(reg.assignedParams), n) && n !in Keys(decls))
      ensures IsDeclared(block) == Ok(false) && r.Err? ==>
        (r.error == KeyError || r.error == ValueError) && executeBlocks == old(executeBlocks)
      ensures var decls := DeclaredOf(reg.declaredParams, Code);
        IsDeclared(block) == Ok(false) && r != Err(KeyError) ==> (Closed(reg.assignedParams, decls)
          && Covers(reg.assignedParams, decls, ParseToCodes(block))
          && KeepsLive(old(reg.assignedParams), reg.assignedParams)
          && GrowsWithin(old(reg.assignedParams), reg.assignedParams, decls)
          && (r.Ok? <==> ExecuteBlocks(history, pinned, reg.assignedParams, decls, history).Ok?))
      ensures var decls := DeclaredOf(reg.declaredParams, Code);
        IsDeclared(block) == Ok(false) && r.Ok? ==> Ok(executeBlocks) == ExecuteBlocks(history, pinned, reg.assignedParams, decls, history)
      ensures IsDeclared(block) == Ok(false) ==>
        Least(reg.assignedParams, old(reg.assignedParams), DeclaredOf(reg.declaredParams, Code), ParseToCodes(block))
    {
      var e := Entry(nextId, block);
      history := history + [e];
      pinned := Some(e);
      nextId := nextId + 1;
      var declared := IsDeclared(block);
      if declared.Err? {
        return Err(declared.error);
      }
      if declared.value {
        var names := BlockNames(block);
        if names.Err? {
          return Err(names.error);
        }
        DeclareAll(reg, names.value, e);
        r := Ok(());
      } else {
        r := ScanForExecute();
      }
    }

    /** `rollback`: drops the last fragment of the history (`IndexError` when there is none); nothing else changes. */
    method Rollback() returns (r: Result<()>)
      requires Valid()
      modifies this
      ensures Valid()
      ensures old(history) == [] ==> r == Err(IndexError) && history == old(history)
      ensures old(history) != [] ==> r == Ok(()) && history == old(history)[..|old(history)| - 1]
      ensures pinned == old(pinned) && executeBlocks == old(executeBlocks) && nextId == old(nextId)
    {
      if history == [] {
        return Err(IndexError);
      }
      history := history[..|history| - 1];
      r := Ok(());
    }

    /** `clear`: unpins the last fragment and empties the emission list; the history stays. */
    method Clear()
      requires Valid()
      modifies this
      ensures Valid()
      ensures pinned == None && executeBlocks == []
      ensures history == old(history) && nextId == old(nextId)
    {
      pinned := None;
      executeBlocks := [];
    }

    /** `parse_codes`: the emitted fragments deflated by one unit, one line each. */
    function ParseCodes(): string
      reads this
    {
      CodeText(executeBlocks)
    }

    /** `inflate(template)`: the code area replaced by the emitted fragments. */
    function Inflate(template: string): string
      reads this
    {
      Replace(template, CodeArea, ParseCodes())
    }
  }
}
