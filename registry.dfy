/**
 * `AssignmentManager` of gonsole/handlers.py: the registry the three handlers
 * share. It holds two insertion-ordered dictionaries: the live names, each
 * with the kind of handler that found it in use, and the declarations, each
 * name with its kind and payload (the package name, the method's block, or
 * the declaring block of the code history).
 *
 * A Python dictionary is an association list with distinct keys: assigning an
 * existing key replaces its value in place, a new key goes at the end.
 */
module Registry {
  import opened Wrappers
  import opened Blocks

  /** The `handler_type` strings `"package"`, `"method"` and `"code"`. */
  datatype Kind = Package | Method | Code

  /**
   * A block of the code history. Python compares blocks by identity; the
   * serial number `id`, given out by the code handler, stands for it.
   */
  datatype Entry = Entry(id: nat, block: Block)

  /** What a declaration carries: the package name, the method's block, or the declaring history entry. */
  datatype Payload = PackageName(name: string) | MethodBlock(body: Block) | CodeEntry(entry: Entry)

  /** The handler kind a payload is declared under. */
  function KindOf(p: Payload): Kind
  {
    match p
    case PackageName(_) => Package
    case MethodBlock(_) => Method
    case CodeEntry(_) => Code
  }

  // ----- insertion-ordered dictionaries -----

  /** The keys, in insertion order: `d.keys()`. */
  function Keys<V>(m: seq<(string, V)>): (r: seq<string>)
    ensures |r| == |m| && forall i :: 0 <= i < |m| ==> r[i] == m[i].0
  {
    if m == [] then [] else [m[0].0] + Keys(m[1..])
  }

  /** No key occurs twice. */
  predicate UniqueKeys<V>(m: seq<(string, V)>)
  {
    forall i, j :: 0 <= i < j < |m| ==> m[i].0 != m[j].0
  }

  /** `d.get(k)`. */
  function Lookup<V>(m: seq<(string, V)>, k: string): (r: Option<V>)
    ensures r.Some? <==> k in Keys(m)
    ensures r.Some? ==> (k, r.value) in m
  {
    if m == [] then None
    else if m[0].0 == k then Some(m[0].1)
    else
      assert Keys(m) == [m[0].0] + Keys(m[1..]);
      Lookup(m[1..], k)
  }

  /** `d[k] = v`: an existing key keeps its place and takes the new value; a new key goes at the end. */
  function Upsert<V>(m: seq<(string, V)>, k: string, v: V): seq<(string, V)>
  {
    if m == [] then [(k, v)]
    else if m[0].0 == k then [(k, v)] + m[1..]
    else [m[0]] + Upsert(m[1..], k, v)
  }

  /** After `d[k] = v`, `k` maps to `v` and every other key to what it mapped to before. */
  lemma {:induction false} UpsertLookup<V>(m: seq<(string, V)>, k: string, v: V, n: string)
    ensures Lookup(Upsert(m, k, v), n) == if n == k then Some(v) else Lookup(m, n)
  {
    if m != [] && m[0].0 != k {
      UpsertLookup(m[1..], k, v, n);
      assert Upsert(m, k, v)[1..] == Upsert(m[1..], k, v);
    }
  }

  /** `d[k] = v` keeps the order of the keys and adds `k` at the end when it is new: at most one more key. */
  lemma {:induction false} UpsertKeys<V>(m: seq<(string, V)>, k: string, v: V)
    ensures Keys(Upsert(m, k, v)) == if k in Keys(m) then Keys(m) else Keys(m) + [k]
    ensures |Upsert(m, k, v)| == if k in Keys(m) then |m| else |m| + 1
  {
    if m != [] && m[0].0 != k {
      UpsertKeys(m[1..], k, v);
      assert Keys(m) == [m[0].0] + Keys(m[1..]);
      assert Keys(Upsert(m, k, v)) == [m[0].0] + Keys(Upsert(m[1..], k, v));
    } else if m != [] {
      assert Keys(m) == [k] + Keys(m[1..]);
      assert Keys(Upsert(m, k, v)) == [k] + Keys(m[1..]);
    }
  }

  /** `d[k] = v` keeps the keys distinct. */
  lemma UpsertUnique<V>(m: seq<(string, V)>, k: string, v: V)
    requires UniqueKeys(m)
    ensures UniqueKeys(Upsert(m, k, v))
  {
    UpsertKeys(m, k, v);
    var r := Upsert(m, k, v);
    forall i, j | 0 <= i < j < |r| ensures r[i].0 != r[j].0 {
      assert Keys(r)[i] == r[i].0 && Keys(r)[j] == r[j].0;
      if j < |m| {
        assert Keys(m)[i] == m[i].0 && Keys(m)[j] == m[j].0;
      } else {
        assert Keys(m)[i] == m[i].0;
      }
    }
  }

  // ----- views by kind -----

  /** The live names of `kind`, in insertion order: `get_assigned(kind)`. */
  function NamesOf(m: seq<(string, Kind)>, kind: Kind): (r: seq<string>)
    ensures forall n :: n in r ==> n in Keys(m)
  {
    if m == [] then []
    else
      assert Keys(m) == [m[0].0] + Keys(m[1..]);
      (if m[0].1 == kind then [m[0].0] else []) + NamesOf(m[1..], kind)
  }

  lemma {:induction false} NamesOfAppend(a: seq<(string, Kind)>, b: seq<(string, Kind)>, kind: Kind)
    ensures NamesOf(a + b, kind) == NamesOf(a, kind) + NamesOf(b, kind)
  {
    if a == [] {
      assert a + b == b;
    } else {
      assert (a + b)[0] == a[0] && (a + b)[1..] == a[1..] + b;
      NamesOfAppend(a[1..], b, kind);
    }
  }

  /** A name is listed under `kind` exactly when the live-name map gives it that kind. */
  lemma {:induction false} NamesOfMembers(m: seq<(string, Kind)>, kind: Kind, n: string)
    requires UniqueKeys(m)
    ensures n in NamesOf(m, kind) <==> Lookup(m, n) == Some(kind)
  {
    if m != [] {
      assert UniqueKeys(m[1..]) by {
        forall i, j | 0 <= i < j < |m[1..]| ensures m[1..][i].0 != m[1..][j].0 {
          assert m[1..][i] == m[i + 1] && m[1..][j] == m[j + 1];
        }
      }
      NamesOfMembers(m[1..], kind, n);
      if m[0].0 == n {
        assert n !in Keys(m[1..]) by {
          forall i | 0 <= i < |m[1..]| ensures Keys(m[1..])[i] != n {
            assert m[1..][i] == m[i + 1];
          }
        }
      }
    }
  }

  /** The declarations of `kind`, in insertion order: `get_declared(kind)`. */
  function DeclaredOf(d: seq<(string, Payload)>, kind: Kind): (r: seq<(string, Payload)>)
    ensures forall e :: e in r ==> e in d && KindOf(e.1) == kind
  {
    if d == [] then []
    else (if KindOf(d[0].1) == kind then [d[0]] else []) + DeclaredOf(d[1..], kind)
  }

  lemma {:induction false} DeclaredOfAppend(a: seq<(string, Payload)>, b: seq<(string, Payload)>, kind: Kind)
    ensures DeclaredOf(a + b, kind) == DeclaredOf(a, kind) + DeclaredOf(b, kind)
  {
    if a == [] {
      assert a + b == b;
    } else {
      assert (a + b)[0] == a[0] && (a + b)[1..] == a[1..] + b;
      DeclaredOfAppend(a[1..], b, kind);
    }
  }

  /** One more entry of `d` adds itself when it has the kind. */
  lemma DeclaredOfPrefix(d: seq<(string, Payload)>, i: nat, kind: Kind)
    requires i < |d|
    ensures DeclaredOf(d[..i + 1], kind)
      == DeclaredOf(d[..i], kind) + if KindOf(d[i].1) == kind then [d[i]] else []
  {
    assert d[..i + 1] == d[..i] + [d[i]];
    DeclaredOfAppend(d[..i], [d[i]], kind);
  }

  /** The first entry of a dictionary with distinct keys is the only one with its key. */
  lemma HeadKeyAbsent<V>(m: seq<(string, V)>)
    requires m != [] && UniqueKeys(m)
    ensures m[0].0 !in Keys(m[1..]) && UniqueKeys(m[1..])
  {
    forall i | 0 <= i < |m[1..]| ensures Keys(m[1..])[i] != m[0].0 {
      assert m[1..][i] == m[i + 1];
    }
    forall i, j | 0 <= i < j < |m[1..]| ensures m[1..][i].0 != m[1..][j].0 {
      assert m[1..][i] == m[i + 1] && m[1..][j] == m[j + 1];
    }
  }

  lemma LookupCons<V>(e: (string, V), m: seq<(string, V)>, n: string)
    ensures Lookup([e] + m, n) == if e.0 == n then Some(e.1) else Lookup(m, n)
  {
    assert ([e] + m)[1..] == m;
  }

  /**
   * The declarations of `kind` are the declarations whose payload is of that
   * kind: a name is found there with its payload exactly when it is declared
   * under `kind`.
   */
  lemma {:induction false} DeclaredOfLookup(d: seq<(string, Payload)>, kind: Kind, n: string)
    requires UniqueKeys(d)
    ensures Lookup(DeclaredOf(d, kind), n)
      == if Lookup(d, n).Some? && KindOf(Lookup(d, n).value) == kind then Lookup(d, n) else None
  {
    if d != [] {
      var tail := DeclaredOf(d[1..], kind);
      HeadKeyAbsent(d);
      DeclaredOfLookup(d[1..], kind, n);
      if KindOf(d[0].1) == kind {
        assert DeclaredOf(d, kind) == [d[0]] + tail;
        LookupCons(d[0], tail, n);
      } else {
        assert DeclaredOf(d, kind) == tail;
      }
    }
  }

  /**
   * Declarations are keyed by name alone: declaring a name under another kind
   * removes it from the declarations of the old kind, and it is found under the
   * new one with the new payload.
   */
  lemma RedeclareHides(d: seq<(string, Payload)>, n: string, p: Payload, kind: Kind)
    requires UniqueKeys(d) && KindOf(p) != kind
    ensures n !in Keys(DeclaredOf(Upsert(d, n, p), kind))
    ensures Lookup(DeclaredOf(Upsert(d, n, p), KindOf(p)), n) == Some(p)
  {
    UpsertUnique(d, n, p);
    UpsertLookup(d, n, p, n);
    DeclaredOfLookup(Upsert(d, n, p), kind, n);
    DeclaredOfLookup(Upsert(d, n, p), KindOf(p), n);
  }

  /** The registry object the handlers share (a single instance). */
  class AssignmentManager {
    /** `assigned_params`: name to the kind of the handler that found it live. */
    var assignedParams: seq<(string, Kind)>
    /** `declared_params`: name to its kind and payload. */
    var declaredParams: seq<(string, Payload)>

    /** Both dictionaries have distinct keys. */
    ghost predicate Valid()
      reads this
    {
      UniqueKeys(assignedParams) && UniqueKeys(declaredParams)
    }

    constructor()
      ensures assignedParams == [] && declaredParams == [] && Valid()
    {
      assignedParams := [];
      declaredParams := [];
    }

    /** `add_assigned`: `assigned_params[param] = kind`. */
    method AddAssigned(param: string, kind: Kind)
      requires Valid()
      modifies this
      ensures Valid()
      ensures assignedParams == Upsert(old(assignedParams), param, kind) && declaredParams == old(declaredParams)
    {
      UpsertUnique(assignedParams, param, kind);
      assignedParams := Upsert(assignedParams, param, kind);
    }

    /** `add_declared`: `declared_params[name] = (kind, payload)`, the kind being the payload's. */
    method AddDeclared(name: string, payload: Payload)
      requires Valid()
      modifies this
      ensures Valid()
      ensures declaredParams == Upsert(old(declaredParams), name, payload) && assignedParams == old(assignedParams)
    {
      UpsertUnique(declaredParams, name, payload);
      declaredParams := Upsert(declaredParams, name, payload);
    }

    /** `get_assigned(kind)`: the live names of that kind, in insertion order. */
    method GetAssigned(kind: Kind) returns (names: seq<string>)
      ensures names == NamesOf(assignedParams, kind)
    {
      names := [];
      var i := 0;
      while i < |assignedParams|
        invariant 0 <= i <= |assignedParams|
        invariant names == NamesOf(assignedParams[..i], kind)
      {
        var step := if assignedParams[i].1 == kind then [assignedParams[i].0] else [];
        assert NamesOf([assignedParams[i]], kind) == step + NamesOf([], kind);
        NamesOfAppend(assignedParams[..i], [assignedParams[i]], kind);
        assert assignedParams[..i + 1] == assignedParams[..i] + [assignedParams[i]];
        names := names + step;
        i := i + 1;
      }
      assert assignedParams[..i] == assignedParams;
    }

    /** `get_declared(kind)`: a new dictionary holding the declarations of that kind, in insertion order. */
    method GetDeclared(kind: Kind) returns (decls: seq<(string, Payload)>)
      ensures decls == DeclaredOf(declaredParams, kind)
    {
      decls := [];
      var i := 0;
      while i < |declaredParams|
        invariant 0 <= i <= |declaredParams|
        invariant decls == DeclaredOf(declaredParams[..i], kind)
      {
        DeclaredOfPrefix(declaredParams, i, kind);
        decls := decls + if KindOf(declaredParams[i].1) == kind then [declaredParams[i]] else [];
        i := i + 1;
      }
      assert declaredParams[..i] == declaredParams;
    }

    /** `clear`: forgets the live names; the declarations stay. */
    method Clear()
      requires Valid()
      modifies this
      ensures Valid()
      ensures assignedParams == [] && declaredParams == old(declaredParams)
    {
      assignedParams := [];
    }

    /** `length`: the number of live names of every kind. */
    function Length(): nat
      reads this
    {
      |assignedParams|
    }
  }
}
