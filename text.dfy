/**
 * The Python string operations the REPL relies on, over `string = seq<char>`:
 * `strip`, `split`, `join`, `replace`, `find`, `in` and string repetition.
 * Regular-expression classes are ASCII only.
 */
module Text {

  /** `\d`, ASCII only. */
  predicate IsDigit(c: char) { '0' <= c <= '9' }

  /** `\w` (and `[_\w]`), ASCII only. */
  predicate IsWordChar(c: char) { 'a' <= c <= 'z' || 'A' <= c <= 'Z' || IsDigit(c) || c == '_' }

  /** A non-empty run of `\w` characters. */
  predicate IsWord(s: string)
  {
    s != [] && forall i :: 0 <= i < |s| ==> IsWordChar(s[i])
  }

  /** The ASCII characters for which Python's `str.isspace` holds: what `str.strip()` removes. */
  const Whitespace: set<char> := {'\t', '\n', '\U{0B}', '\U{0C}', '\r', '\U{1C}', '\U{1D}', '\U{1E}', '\U{1F}', ' '}

  /** Leading characters in `cs` removed. */
  function TrimLeft(s: string, cs: set<char>): (r: string)
    ensures |r| <= |s| && r == s[|s| - |r|..]
    ensures r == [] || r[0] !in cs
    ensures forall i :: 0 <= i < |s| - |r| ==> s[i] in cs
  {
    if s != [] && s[0] in cs then TrimLeft(s[1..], cs) else s
  }

  /** Trailing characters in `cs` removed. */
  function TrimRight(s: string, cs: set<char>): (r: string)
    ensures |r| <= |s| && r == s[..|r|]
    ensures r == [] || r[|r| - 1] !in cs
    ensures forall i :: |r| <= i < |s| ==> s[i] in cs
  {
    if s != [] && s[|s| - 1] in cs then TrimRight(s[..|s| - 1], cs) else s
  }

  /** Python `s.strip(cs)`: the longest infix of `s` that neither starts nor ends with a character of `cs`. */
  function Strip(s: string, cs: set<char>): (r: string)
    ensures |r| <= |s|
    ensures r == [] || (r[0] !in cs && r[|r| - 1] !in cs)
    ensures forall c :: c in r ==> c in s
  {
    var l := TrimLeft(s, cs);
    var r := TrimRight(l, cs);
    assert forall c :: c in r ==> c in l;
    r
  }

  /** `r` sits in `s` at `i`, with only characters of `cs` before and after it. */
  predicate InfixAt(s: string, r: string, i: int, cs: set<char>)
  {
    0 <= i && i + |r| <= |s| && r == s[i..i + |r|]
    && (forall k :: 0 <= k < i ==> s[k] in cs)
    && (forall k :: i + |r| <= k < |s| ==> s[k] in cs)
  }

  /**
   * What `strip` removes: the result is the piece of `s` left after removing
   * characters of `cs` at both ends and nothing else (with the ends of the
   * result, stated by `Strip`, this fixes the result).
   */
  lemma {:induction false} StripInfix(s: string, cs: set<char>)
    ensures exists i :: InfixAt(s, Strip(s, cs), i, cs)
  {
    var l := TrimLeft(s, cs);
    var r := TrimRight(l, cs);
    assert Strip(s, cs) == r;
    var i := |s| - |l|;
    assert r == s[i..i + |r|];
    forall k | i + |r| <= k < |s|
      ensures s[k] in cs
    {
      assert s[k] == l[k - i];
    }
    assert InfixAt(s, r, i, cs);
  }

  /** Stripping text that neither starts nor ends with a character of `cs` changes nothing. */
  lemma StripKeeps(s: string, cs: set<char>)
    requires s == [] || (s[0] !in cs && s[|s| - 1] !in cs)
    ensures Strip(s, cs) == s
  {
  }

  /** Text made only of characters of `cs` strips to nothing. */
  lemma StripAll(s: string, cs: set<char>)
    requires forall c :: c in s ==> c in cs
    ensures Strip(s, cs) == []
  {
  }

  /** Stripping leading characters of `cs` off a word that neither starts nor ends with one. */
  lemma {:induction false} StripPadded(pad: string, w: string, cs: set<char>)
    requires forall c :: c in pad ==> c in cs
    requires w != [] && w[0] !in cs && w[|w| - 1] !in cs
    ensures Strip(pad + w, cs) == w
  {
    TrimLeftPadded(pad, w, cs);
  }

  lemma {:induction false} TrimLeftPadded(pad: string, w: string, cs: set<char>)
    requires forall c :: c in pad ==> c in cs
    requires w != [] && w[0] !in cs
    ensures TrimLeft(pad + w, cs) == w
  {
    if pad != [] {
      assert (pad + w)[0] == pad[0] && (pad + w)[1..] == pad[1..] + w;
      TrimLeftPadded(pad[1..], w, cs);
    } else {
      assert pad + w == w;
    }
  }

  /** Neither starts nor ends with whitespace. */
  predicate Unpadded(s: string)
  {
    s == [] || (s[0] !in Whitespace && s[|s| - 1] !in Whitespace)
  }

  /** Python `s.strip()` with no argument. */
  function StripSpace(s: string): (r: string)
    ensures |r| <= |s|
    ensures Unpadded(r)
    ensures forall c :: c in r ==> c in s
  {
    Strip(s, Whitespace)
  }

  /** `strip()` removes whitespace at both ends and nothing else. */
  lemma {:induction false} StripSpaceInfix(s: string)
    ensures exists i :: InfixAt(s, StripSpace(s), i, Whitespace)
  {
    StripInfix(s, Whitespace);
    assert StripSpace(s) == Strip(s, Whitespace);
  }

  /** Python `sep.join(parts)`. */
  function Join(parts: seq<string>, sep: string): string
  {
    if |parts| == 0 then []
    else if |parts| == 1 then parts[0]
    else parts[0] + sep + Join(parts[1..], sep)
  }

  /** Python `s.split(c)` for a one-character separator: the pieces between the occurrences of `c`. */
  function Split(s: string, c: char): (r: seq<string>)
    ensures |r| >= 1
    ensures forall p :: p in r ==> c !in p
    ensures (c in s) <==> |r| > 1
  {
    if s == [] then [[]]
    else
      var t := Split(s[1..], c);
      if s[0] == c then [[]] + t
      else [[s[0]] + t[0]] + t[1..]
  }

  /** Joining after a leading empty piece starts with the separator. */
  lemma JoinEmptyHead(t: seq<string>, sep: string)
    requires t != []
    ensures Join([[]] + t, sep) == sep + Join(t, sep)
  {
    var r := [[]] + t;
    assert r[0] == [] && r[1..] == t;
  }

  /** Joining after a character is put in front of the first piece puts it in front of the whole. */
  lemma JoinHeadExtend(ch: char, t: seq<string>, sep: string)
    requires t != []
    ensures Join([[ch] + t[0]] + t[1..], sep) == [ch] + Join(t, sep)
  {
    var r := [[ch] + t[0]] + t[1..];
    assert r[0] == [ch] + t[0] && r[1..] == t[1..];
  }

  /** Joining the pieces with the separator gives back the text. */
  lemma {:induction false} SplitJoin(s: string, c: char)
    ensures Join(Split(s, c), [c]) == s
  {
    if s != [] {
      assert s == [s[0]] + s[1..];
      var t := Split(s[1..], c);
      SplitJoin(s[1..], c);
      if s[0] == c {
        JoinEmptyHead(t, [c]);
      } else {
        JoinHeadExtend(s[0], t, [c]);
      }
    }
  }

  /** Splitting the joined pieces gives the pieces back, when none holds the separator. */
  lemma {:induction false} SplitOfJoin(parts: seq<string>, c: char)
    requires parts != [] && forall p :: p in parts ==> c !in p
    ensures Split(Join(parts, [c]), c) == parts
  {
    if |parts| == 1 {
      SplitNone(parts[0], c);
    } else {
      assert parts[0] in parts;
      assert forall p :: p in parts[1..] ==> p in parts;
      SplitOfJoin(parts[1..], c);
      SplitAtFirst(parts[0], Join(parts[1..], [c]), c);
      assert [parts[0]] + parts[1..] == parts;
    }
  }

  /** Every character of every piece is a character of the text. */
  lemma {:induction false} SplitChars(s: string, c: char)
    ensures forall p, x :: p in Split(s, c) && x in p ==> x in s
  {
    if s != [] {
      SplitChars(s[1..], c);
      var t := Split(s[1..], c);
      if s[0] != c {
        assert forall x :: x in [s[0]] + t[0] ==> x == s[0] || x in t[0];
      }
    }
  }

  /** A string without the separator is a single piece. */
  lemma {:induction false} SplitNone(s: string, c: char)
    requires c !in s
    ensures Split(s, c) == [s]
  {
    if s != [] {
      assert c !in s[1..];
      SplitNone(s[1..], c);
      assert [s[0]] + s[1..] == s;
    }
  }

  /** Splitting at the first separator. */
  lemma {:induction false} SplitAtFirst(a: string, b: string, c: char)
    requires c !in a
    ensures Split(a + [c] + b, c) == [a] + Split(b, c)
  {
    var s := a + [c] + b;
    if a == [] {
      assert s[0] == c && s[1..] == b;
    } else {
      assert s[0] == a[0] != c;
      assert s[1..] == a[1..] + [c] + b;
      SplitAtFirst(a[1..], b, c);
      var t := Split(s[1..], c);
      assert t == [a[1..]] + Split(b, c);
      assert Split(s, c) == [[a[0]] + t[0]] + t[1..];
      assert [a[0]] + a[1..] == a;
    }
  }

  /** Text with the separator at two places splits into the three parts between them. */
  lemma {:induction false} SplitThree(a: string, b: string, c: string, sep: char)
    requires sep !in a && sep !in b && sep !in c
    ensures Split(a + [sep] + b + [sep] + c, sep) == [a, b, c]
  {
    assert a + [sep] + b + [sep] + c == a + [sep] + (b + [sep] + c);
    SplitAtFirst(a, b + [sep] + c, sep);
    SplitAtFirst(b, c, sep);
    SplitNone(c, sep);
  }

  /** Splitting at any one separator: the pieces before it, then the pieces after it. */
  lemma {:induction false} SplitConcat(a: string, b: string, c: char)
    ensures Split(a + [c] + b, c) == Split(a, c) + Split(b, c)
  {
    if a == [] {
      SplitAtFirst(a, b, c);
      SplitNone(a, c);
    } else {
      var s := a + [c] + b;
      assert s[1..] == a[1..] + [c] + b;
      SplitConcat(a[1..], b, c);
      SplitStep(s, a[0], Split(a[1..], c), Split(b, c), c);
      SplitStep(a, a[0], Split(a[1..], c), [], c);
    }
  }

  /** One step of `Split` when the rest of the text splits into `t + u`. */
  lemma SplitStep(s: string, x: char, t: seq<string>, u: seq<string>, c: char)
    requires s != [] && s[0] == x && t != [] && Split(s[1..], c) == t + u
    ensures Split(s, c) == (if x == c then [[]] + t else [[x] + t[0]] + t[1..]) + u
  {
    if x != c {
      assert (t + u)[0] == t[0];
      assert (t + u)[1..] == t[1..] + u;
    }
  }

  /** Python `s.endswith(c)` for one character. */
  predicate EndsWith(s: string, c: char)
  {
    s != [] && s[|s| - 1] == c
  }

  /** The last element of a non-empty sequence: Python's `xs[-1]`. */
  function Last<T>(xs: seq<T>): T
    requires xs != []
  {
    xs[|xs| - 1]
  }

  /** Python `pat in s` for a pattern of any length. */
  predicate HasInfix(s: string, pat: string)
  {
    pat <= s || (s != [] && HasInfix(s[1..], pat))
  }

  /** Python `s.split(pat)[0]`: the text before the first occurrence of `pat` (all of `s` when there is none). */
  function BeforeFirst(s: string, pat: string): (r: string)
    requires pat != []
    ensures r <= s
    ensures HasInfix(s, pat) <==> pat <= s[|r|..]
    ensures !HasInfix(r, pat)
    ensures !HasInfix(s, pat) ==> r == s
    ensures forall k :: 0 <= k < |r| ==> !(pat <= s[k..])
  {
    if pat <= s then []
    else if s == [] then []
    else
      var t := BeforeFirst(s[1..], pat);
      assert s[1..][|t|..] == s[1 + |t|..];
      assert forall k :: 1 <= k <= |s| ==> s[k..] == s[1..][k - 1..];
      [s[0]] + t
  }

  /** Python `s.replace(pat, rep)`: every occurrence of `pat`, scanning left to right, replaced by `rep`. */
  function Replace(s: string, pat: string, rep: string): (r: string)
    decreases |s|, if pat == [] then 1 else 0
  {
    if pat == [] then
      // Python inserts `rep` before every character and at the end
      if s == [] then rep else rep + [s[0]] + Replace(s[1..], pat, rep)
    else if pat <= s then rep + Replace(s[|pat|..], pat, rep)
    else if s == [] then []
    else [s[0]] + Replace(s[1..], pat, rep)
  }

  /** Python `s * k`. */
  function Repeat(s: string, k: nat): (r: string)
    ensures |r| == k * |s|
    ensures forall c :: c in r ==> c in s
  {
    if k == 0 then [] else s + Repeat(s, k - 1)
  }

  lemma {:induction false} MulAtLeast(a: int, n: int)
    requires a >= 1 && n > 0
    ensures a * n >= n
  {
    if a > 1 {
      MulAtLeast(a - 1, n);
      assert a * n == (a - 1) * n + n;
    }
  }

  /** The remainder is the unique `m` in `[0, n)` with `x == q * n + m`. */
  lemma ModUnique(x: int, n: int, q: int, m: int)
    requires n > 0 && 0 <= m < n && x == q * n + m
    ensures x % n == m
  {
    var q' := x / n;
    assert q * n - q' * n == (q - q') * n;
    if q > q' {
      MulAtLeast(q - q', n);
    } else if q < q' {
      assert q' * n - q * n == (q' - q) * n;
      MulAtLeast(q' - q, n);
    }
  }

  lemma ModShift(i: int, n: int)
    requires n > 0 && i >= n
    ensures (i - n) % n == i % n
  {
    var q := (i - n) / n;
    assert (q + 1) * n == q * n + n;
    ModUnique(i, n, q + 1, (i - n) % n);
  }

  /** `s * k` is `k` copies of `s` in a row: position `i` holds `s[i % |s|]`. */
  lemma {:induction false} RepeatCopies(s: string, k: nat)
    requires s != []
    ensures forall i :: 0 <= i < |Repeat(s, k)| ==> Repeat(s, k)[i] == s[i % |s|]
  {
    if k > 0 {
      var t := Repeat(s, k - 1);
      RepeatCopies(s, k - 1);
      var r := Repeat(s, k);
      assert r == s + t;
      forall i | 0 <= i < |r|
        ensures r[i] == s[i % |s|]
      {
        if i < |s| {
          ModUnique(i, |s|, 0, i);
        } else {
          assert r[i] == t[i - |s|];
          ModShift(i, |s|);
        }
      }
    }
  }

  /**
   * No occurrence of the two-character marker `mk` can start inside `s`, even
   * with more text after it: every first character of the marker in `s` is
   * followed, within `s`, by something other than the second.
   */
  predicate MarkerFree(s: string, mk: string)
    requires |mk| == 2
  {
    forall i :: 0 <= i < |s| && s[i] == mk[0] ==> i + 1 < |s| && s[i + 1] != mk[1]
  }

  /** One step of the scan: text that does not start with the pattern keeps its first character. */
  lemma ReplaceStep(s: string, pat: string, rep: string)
    requires pat != [] && s != [] && !(pat <= s)
    ensures Replace(s, pat, rep) == [s[0]] + Replace(s[1..], pat, rep)
  {
  }

  /** Text that starts with marker-free text cannot start with a pattern that opens with the marker. */
  lemma NoMatchAtFront(a: string, b: string, pat: string, mk: string)
    requires |mk| == 2 && mk <= pat && a != [] && MarkerFree(a, mk)
    ensures !(pat <= a + b)
  {
    var s := a + b;
    assert s[0] == a[0];
    if a[0] == mk[0] {
      assert s[1] == a[1];
    }
  }

  /** Marker-free text stays so without its first character. */
  lemma MarkerFreeTail(a: string, mk: string)
    requires |mk| == 2 && a != [] && MarkerFree(a, mk)
    ensures MarkerFree(a[1..], mk)
  {
    var t := a[1..];
    forall i | 0 <= i < |t| && t[i] == mk[0] ensures i + 1 < |t| && t[i + 1] != mk[1] {
      assert t[i] == a[i + 1];
    }
  }

  /** Text that differs from the pattern at some index does not start with it. */
  lemma NotPrefixAt(s: string, pat: string, k: nat)
    requires k < |s| && k < |pat| && s[k] != pat[k]
    ensures !(pat <= s)
  {
  }

  /** A non-empty prefix split into its first element and the rest. */
  lemma ConsConcat<T>(a: seq<T>, r: seq<T>)
    requires a != []
    ensures [a[0]] + (a[1..] + r) == a + r
  {
  }

  /** Replacing a pattern that opens with the marker copies marker-free text through unchanged. */
  lemma {:induction false} ReplaceCopies(a: string, b: string, pat: string, rep: string, mk: string)
    requires |mk| == 2 && mk <= pat && MarkerFree(a, mk)
    ensures Replace(a + b, pat, rep) == a + Replace(b, pat, rep)
  {
    if a == [] {
      assert a + b == b;
    } else {
      NoMatchAtFront(a, b, pat, mk);
      ReplaceStep(a + b, pat, rep);
      assert (a + b)[1..] == a[1..] + b;
      MarkerFreeTail(a, mk);
      ReplaceCopies(a[1..], b, pat, rep, mk);
      ConsConcat(a, Replace(b, pat, rep));
    }
  }

  /** Marker-free text is left as it is. */
  lemma ReplaceMarkerFree(s: string, pat: string, rep: string, mk: string)
    requires |mk| == 2 && mk <= pat && MarkerFree(s, mk)
    ensures Replace(s, pat, rep) == s
  {
    ReplaceCopies(s, [], pat, rep, mk);
    assert s + [] == s;
  }

  /** An occurrence of the pattern at the front is replaced, and the scan resumes after it. */
  lemma ReplaceHit(b: string, pat: string, rep: string)
    requires pat != []
    ensures Replace(pat + b, pat, rep) == rep + Replace(b, pat, rep)
  {
    assert (pat + b)[|pat|..] == b;
  }

  /**
   * Text `q` that differs from the pattern at index `k`, and whose tail after the
   * first character is marker-free, is copied through.
   */
  lemma ReplaceSkip(q: string, b: string, pat: string, rep: string, mk: string, k: nat)
    requires |mk| == 2 && mk <= pat && q != [] && MarkerFree(q[1..], mk)
    requires k < |q| && k < |pat| && q[k] != pat[k]
    ensures Replace(q + b, pat, rep) == q + Replace(b, pat, rep)
  {
    var s := q + b;
    var t := q[1..];
    assert s[1..] == t + b;
    assert s[k] == q[k];
    NotPrefixAt(s, pat, k);
    ReplaceCopies(t, b, pat, rep, mk);
    ReplaceStep(s, pat, rep);
    ConsConcat(q, Replace(b, pat, rep));
  }

  /** The text before the first occurrence of a one-character separator is the word in front of it. */
  lemma {:induction false} BeforeFirstAt(w: string, rest: string, c: char)
    requires c !in w
    ensures BeforeFirst(w + [c] + rest, [c]) == w
    ensures HasInfix(w + [c] + rest, [c])
  {
    var s := w + [c] + rest;
    if w == [] {
      assert [c] <= s;
    } else {
      assert s[0] == w[0] && s[1..] == w[1..] + [c] + rest;
      BeforeFirstAt(w[1..], rest, c);
      assert w == [w[0]] + w[1..];
    }
  }

  /** A pattern whose first character `s` lacks does not occur in `s`. */
  lemma {:induction false} NoInfixWithout(s: string, pat: string)
    requires pat != [] && pat[0] !in s
    ensures !HasInfix(s, pat)
  {
    if s != [] {
      assert s[0] != pat[0];
      NoInfixWithout(s[1..], pat);
    }
  }

  /** The text before the first occurrence of a pattern whose first character the text in front of it lacks. */
  lemma {:induction false} BeforeFirstBefore(w: string, pat: string, rest: string)
    requires pat != [] && pat[0] !in w
    ensures BeforeFirst(w + pat + rest, pat) == w
    ensures HasInfix(w + pat + rest, pat)
  {
    var s := w + pat + rest;
    assert s[..|w|] == w && s[|w|..] == pat + rest;
    BeforeFirstIndex(s, pat, |w|);
  }

  /** The text before the first occurrence of `pat`, found at `j`, with no first character of `pat` before it. */
  lemma {:induction false} BeforeFirstIndex(s: string, pat: string, j: nat)
    requires pat != [] && j <= |s| && pat <= s[j..]
    requires forall i :: 0 <= i < j ==> s[i] != pat[0]
    ensures BeforeFirst(s, pat) == s[..j]
    ensures HasInfix(s, pat)
  {
    if j > 0 {
      var t := s[1..];
      assert s[0] != pat[0] && !(pat <= s);
      assert t[j - 1..] == s[j..];
      assert forall i :: 0 <= i < j - 1 ==> t[i] == s[i + 1];
      BeforeFirstIndex(t, pat, j - 1);
      assert BeforeFirst(s, pat) == [s[0]] + BeforeFirst(t, pat);
      assert [s[0]] + t[..j - 1] == s[..j];
    }
  }

  /** A word with characters of `cs` on both sides strips to the word. */
  lemma {:induction false} StripBoth(pad: string, w: string, pad2: string, cs: set<char>)
    requires forall c :: c in pad ==> c in cs
    requires forall c :: c in pad2 ==> c in cs
    requires w != [] && w[0] !in cs && w[|w| - 1] !in cs
    ensures Strip(pad + w + pad2, cs) == w
  {
    assert pad + w + pad2 == pad + (w + pad2);
    TrimLeftPadded(pad, w + pad2, cs);
    TrimRightPadded(w, pad2, cs);
  }

  lemma {:induction false} TrimRightPadded(w: string, pad: string, cs: set<char>)
    requires forall c :: c in pad ==> c in cs
    requires w != [] && w[|w| - 1] !in cs
    ensures TrimRight(w + pad, cs) == w
    decreases |pad|
  {
    if pad != [] {
      var p := pad[..|pad| - 1];
      assert (w + pad)[|w + pad| - 1] == pad[|pad| - 1];
      assert pad[|pad| - 1] in pad;
      assert (w + pad)[..|w + pad| - 1] == w + p;
      assert forall c :: c in p ==> c in pad;
      TrimRightPadded(w, p, cs);
    } else {
      assert w + pad == w;
    }
  }

  /** A character in neither the parts nor the separator is not in their join. */
  lemma {:induction false} JoinWithout(parts: seq<string>, sep: string, c: char)
    requires c !in sep
    requires forall i :: 0 <= i < |parts| ==> c !in parts[i]
    ensures c !in Join(parts, sep)
  {
    if |parts| > 1 {
      JoinWithout(parts[1..], sep, c);
    }
  }

  /** A word between two stripped characters strips to the word. */
  lemma StripWrapped(c: char, w: string, cs: set<char>)
    requires c in cs && w != [] && w[0] !in cs && w[|w| - 1] !in cs
    ensures Strip([c] + w + [c], cs) == w
  {
    TrimLeftPadded([c], w + [c], cs);
    assert [c] + w + [c] == [c] + (w + [c]);
    assert (w + [c])[..|w|] == w;
  }

  /** Text without the marker's first character is marker-free. */
  lemma MarkerFreeWithout(s: string, mk: string)
    requires |mk| == 2 && mk[0] !in s
    ensures MarkerFree(s, mk)
  {
  }
}
