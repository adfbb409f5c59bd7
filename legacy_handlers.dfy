/**
 * The older set-based `PackageHandler` of libs/handlers.py: declared packages
 * and used packages are sets, and a package is used once some token of
 * `parse_code` starts with the last dot-separated segment of its path.
 */
module LegacyHandlers {
  import opened Text
  import opened Indent
  import opened Tokenizer
  import opened Sets
  import Handlers

  /** `_used_package(package, code)`: the last segment of the unquoted path starts the token. */
  predicate UsedPackage(package: string, code: string)
  {
    Last(Split(Strip(package, {'"'}), '.')) <= code
  }

  /** `order` lists every element of `s` once: a possible iteration order of the set. */
  ghost predicate Enumerates(order: seq<string>, s: set<string>)
  {
    |order| == |s| && forall p :: p in order <==> p in s
  }

  /** `_format(package)`: the package after one indentation unit, quoted as it was added. */
  function PackageLine(package: string): string
  {
    StandardSpace + package
  }

  function PackageLines(order: seq<string>): (r: seq<string>)
    ensures |r| == |order| && forall i :: 0 <= i < |order| ==> r[i] == PackageLine(order[i])
  {
    seq(|order|, i requires 0 <= i < |order| => PackageLine(order[i]))
  }

  class PackageHandler {
    /** `packages`: every package added. */
    var packages: set<string>
    /** `used_packages`: the packages some scanned token used. */
    var usedPackages: set<string>

    /** Only added packages are ever used. */
    ghost predicate Valid()
      reads this
    {
      usedPackages <= packages
    }

    constructor()
      ensures Valid() && packages == {} && usedPackages == {}
    {
      packages := {};
      usedPackages := {};
    }

    /** `add(package)`: a set insert, so adding a package twice keeps one copy. */
    method Add(package: string)
      requires Valid()
      modifies this
      ensures Valid()
      ensures packages == old(packages) + {package} && usedPackages == old(usedPackages)
    {
      packages := packages + {package};
    }

    /** `len(handler)`. */
    function Length(): nat
      reads this
    {
      |packages|
    }

    /** `used_package_length`: never more than the packages added. */
    function UsedPackageLength(): (n: nat)
      requires Valid()
      reads this
      ensures n <= Length()
    {
      SubsetSize(usedPackages, packages);
      |usedPackages|
    }

    /**
     * `scan_used_package(code)`: every added package that some token of
     * `parse_code(code)` uses joins the used packages; none leaves.
     */
    method ScanUsedPackage(code: string)
      requires Valid()
      modifies this
      ensures Valid() && packages == old(packages)
      ensures usedPackages == old(usedPackages) + UsedBy(packages, ParseCode(code))
    {
      var tokens := ParseCode(code);
      var i := 0;
      while i < |tokens|
        invariant 0 <= i <= |tokens|
        invariant Valid() && packages == old(packages)
        invariant usedPackages == old(usedPackages) + UsedBy(packages, tokens[..i])
      {
        UseToken(tokens[i]);
        UsedByPrefix(packages, tokens, i);
        i := i + 1;
      }
      assert tokens[..i] == tokens;
    }

    /** The body of the loop of `scan_used_package`: `used_packages.update(...)` for one token. */
    method UseToken(token: string)
      requires Valid()
      modifies this
      ensures Valid() && packages == old(packages)
      ensures usedPackages == old(usedPackages) + set p | p in packages && UsedPackage(p, token)
    {
      usedPackages := usedPackages + set p | p in packages && UsedPackage(p, token);
    }

    /** `_parse_packages`, with the iteration order of the set given as `order`. */
    function ParsePackages(order: seq<string>): string
      requires Enumerates(order, usedPackages)
      reads this
    {
      Join(PackageLines(order), "\n")
    }

    /** `inflate(template)`: the import area replaced by one line per used package. */
    function Inflate(template: string, order: seq<string>): string
      requires Enumerates(order, usedPackages)
      reads this
    {
      Replace(template, Handlers.ImportArea, ParsePackages(order))
    }
  }

  /** The packages the tokens use, token after token. */
  function UsedBy(packages: set<string>, tokens: seq<string>): (r: set<string>)
    ensures r <= packages
  {
    if tokens == [] then {}
    else UsedBy(packages, tokens[..|tokens| - 1]) + set p | p in packages && UsedPackage(p, Last(tokens))
  }

  /** One more token adds the packages it uses. */
  lemma UsedByPrefix(packages: set<string>, tokens: seq<string>, i: nat)
    requires i < |tokens|
    ensures UsedBy(packages, tokens[..i + 1])
      == UsedBy(packages, tokens[..i]) + set p | p in packages && UsedPackage(p, tokens[i])
  {
    assert tokens[..i + 1][..i] == tokens[..i];
  }

  /** A package is used exactly when it was added and some token uses it. */
  lemma {:induction false} UsedByMembers(packages: set<string>, tokens: seq<string>, p: string)
    ensures p in UsedBy(packages, tokens) <==> p in packages && exists t :: t in tokens && UsedPackage(p, t)
  {
    if tokens != [] {
      var init := tokens[..|tokens| - 1];
      UsedByMembers(packages, init, p);
      assert tokens == init + [Last(tokens)];
      assert (exists t :: t in tokens && UsedPackage(p, t))
        <==> (exists t :: t in init && UsedPackage(p, t)) || UsedPackage(p, Last(tokens));
    }
  }

  /** The import area has one line per used package, when no package holds a line break. */
  lemma ParsePackagesLines(h: PackageHandler, order: seq<string>)
    requires Enumerates(order, h.usedPackages) && h.usedPackages != {}
    requires forall p :: p in h.usedPackages ==> '\n' !in p
    ensures Split(h.ParsePackages(order), '\n') == PackageLines(order)
    ensures |Split(h.ParsePackages(order), '\n')| == |h.usedPackages|
  {
    forall l | l in PackageLines(order) ensures '\n' !in l {
      var i :| 0 <= i < |order| && PackageLines(order)[i] == l;
      assert order[i] in h.usedPackages;
    }
    assert order != [] by {
      var p :| p in h.usedPackages;
      assert p in order;
    }
    SplitOfJoin(PackageLines(order), '\n');
  }
}
