/**
 * Indentation: `inflate_space` of gonsole/utils.py (any number of units) and
 * of libs/utils.py (exactly one unit). `STANDARD_SPACE` is four spaces.
 */
module Indent {
  import opened Text

  /** `STANDARD_SPACE`. */
  const StandardSpace: string := "    "

  /** `inflate_space(code, indent)`: `indent` units of four spaces, then the line. */
  function InflateSpace(code: string, indent: nat): (r: string)
    ensures |r| == 4 * indent + |code|
    ensures r[4 * indent..] == code
    ensures forall i :: 0 <= i < 4 * indent ==> r[i] == ' '
  {
    var pad := Repeat(StandardSpace, indent);
    assert forall i :: 0 <= i < |pad| ==> pad[i] in StandardSpace;
    pad + code
  }

  /** Indenting by zero units changes nothing. */
  lemma InflateSpaceZero(code: string)
    ensures InflateSpace(code, 0) == code
  {
  }

  /** Indenting twice adds the units. */
  lemma InflateSpaceTwice(code: string, j: nat, k: nat)
    ensures InflateSpace(InflateSpace(code, j), k) == InflateSpace(code, j + k)
  {
    var a := InflateSpace(InflateSpace(code, j), k);
    var b := InflateSpace(code, j + k);
    assert |a| == |b|;
    forall i | 0 <= i < |a| ensures a[i] == b[i] {
      if i >= 4 * (j + k) {
        assert a[i] == InflateSpace(code, j)[i - 4 * k] == code[i - 4 * (j + k)];
      } else if i >= 4 * k {
        assert a[i] == InflateSpace(code, j)[i - 4 * k] == ' ';
      }
    }
  }

  /** `inflate_space(code)` of libs/utils.py: one four-space unit, then the line. */
  function InflateOnce(code: string): (r: string)
    ensures r == InflateSpace(code, 1)
  {
    var r := StandardSpace + code;
    assert r[4..] == code;
    r
  }
}
