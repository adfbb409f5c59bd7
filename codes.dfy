/**
 * The filters that drop tokenizer pieces which cannot be identifiers:
 * `filter_real_codes` of gonsole/block/codes.py (also written out in gonsole/block.py)
 * and the older `filter_real_codes` of libs/utils.py and src/utils.py.
 */
module Codes {
  import opened Text

  /** What `(\"|'|\d)+` matches at the start of a piece: a double quote, a single quote or a digit. */
  predicate StartsLikeLiteral(code: string)
  {
    code != [] && (code[0] == '"' || code[0] == '\'' || IsDigit(code[0]))
  }

  /** A piece that `filter_real_codes` keeps. */
  predicate IsRealCode(code: string)
  {
    code != [] && !StartsLikeLiteral(code)
  }

  /** `a` is `b` with some elements left out, order kept. */
  predicate IsSubsequence<T(==)>(a: seq<T>, b: seq<T>)
  {
    a == [] || (b != [] && ((a[0] == b[0] && IsSubsequence(a[1..], b[1..])) || IsSubsequence(a, b[1..])))
  }

  /** A subsequence of the tail, with the head kept or not, is a subsequence of the whole. */
  lemma SubsequenceStep<T>(x: T, keep: bool, rest: seq<T>, tail: seq<T>)
    requires IsSubsequence(rest, tail)
    ensures IsSubsequence((if keep then [x] else []) + rest, [x] + tail)
    ensures forall y :: y in (if keep then [x] else []) + rest ==> y in [x] + tail
  {
    SubsequenceMembers(rest, tail);
    if keep {
      assert ([x] + rest)[1..] == rest;
    } else {
      assert [] + rest == rest;
      assert ([x] + tail)[1..] == tail;
    }
  }

  /** The elements of a subsequence are elements of the sequence. */
  lemma {:induction false} SubsequenceMembers<T>(a: seq<T>, b: seq<T>)
    requires IsSubsequence(a, b)
    ensures forall y :: y in a ==> y in b
  {
    if a != [] {
      if a[0] == b[0] && IsSubsequence(a[1..], b[1..]) {
        SubsequenceMembers(a[1..], b[1..]);
        assert a == [a[0]] + a[1..] && b == [b[0]] + b[1..];
      } else {
        SubsequenceMembers(a, b[1..]);
      }
    }
  }

  /** `filter_real_codes`: drops the empty pieces and the pieces that start with a quote or a digit. */
  function FilterRealCodes(codes: seq<string>): (r: seq<string>)
    ensures forall c :: c in r ==> IsRealCode(c) && c in codes
    ensures forall c :: c in codes && IsRealCode(c) ==> c in r
    ensures IsSubsequence(r, codes)
  {
    if codes == [] then []
    else if IsRealCode(codes[0]) then [codes[0]] + FilterRealCodes(codes[1..])
    else FilterRealCodes(codes[1..])
  }

  /** A list every element of which is real is left as it is. */
  lemma {:induction false} FilterRealCodesKeepsReal(codes: seq<string>)
    requires forall c :: c in codes ==> IsRealCode(c)
    ensures FilterRealCodes(codes) == codes
  {
    if codes != [] {
      FilterRealCodesKeepsReal(codes[1..]);
    }
  }

  /** No real piece, nothing kept. */
  lemma {:induction false} FilterRealCodesDropsAll(codes: seq<string>)
    requires forall c :: c in codes ==> !IsRealCode(c)
    ensures FilterRealCodes(codes) == []
  {
    if codes != [] {
      assert codes[0] in codes;
      FilterRealCodesDropsAll(codes[1..]);
    }
  }

  /** Filtering distributes over concatenation. */
  lemma {:induction false} FilterRealCodesAppend(xs: seq<string>, ys: seq<string>)
    ensures FilterRealCodes(xs + ys) == FilterRealCodes(xs) + FilterRealCodes(ys)
  {
    if xs != [] {
      assert (xs + ys)[1..] == xs[1..] + ys;
      FilterRealCodesAppend(xs[1..], ys);
    } else {
      assert xs + ys == ys;
    }
  }

  /** Filtering twice is filtering once. */
  lemma FilterRealCodesIdempotent(codes: seq<string>)
    ensures FilterRealCodes(FilterRealCodes(codes)) == FilterRealCodes(codes)
  {
    FilterRealCodesKeepsReal(FilterRealCodes(codes));
  }

  /** A piece the older filter keeps: non-empty and not starting with a double quote. */
  predicate IsUnquoted(code: string)
  {
    code != [] && code[0] != '"'
  }

  /** The older `filter_real_codes` of libs/utils.py and src/utils.py: it drops only the empty and the `"`-leading pieces. */
  function FilterUnquoted(codes: seq<string>): (r: seq<string>)
    ensures forall c :: c in r ==> IsUnquoted(c) && c in codes
    ensures forall c :: c in codes && IsUnquoted(c) ==> c in r
    ensures IsSubsequence(r, codes)
  {
    if codes == [] then []
    else if IsUnquoted(codes[0]) then [codes[0]] + FilterUnquoted(codes[1..])
    else FilterUnquoted(codes[1..])
  }

  /** The older filter is weaker: it keeps apostrophe- and digit-leading pieces the newer one drops. */
  lemma FilterUnquotedKeepsLiterals()
    ensures FilterUnquoted(["'a'", "1"]) == ["'a'", "1"]
    ensures FilterRealCodes(["'a'", "1"]) == []
  {
  }
}
