/**
 * `BlockGenerator` of gonsole/block/block.py (identical in gonsole/block.py):
 * an opener line whose stripped text ends with `{` (or `(`) keeps reading
 * continuation lines until one ends with `}` (or `)`); every line before the
 * closer becomes a nested block, built the same way, and the closer is
 * appended as the last literal line.
 *
 * The continuation-line callback is a finite sequence of inputs read from a
 * position: a typed line, or a keyboard interrupt.
 */
module Generator {
  import opened Wrappers
  import opened Text
  import opened Blocks

  /** What one call of the continuation-line callback produces. */
  datatype Input = Typed(text: string) | Interrupt

  /**
   * The outcome of `generate`: the block and the position of the first unread
   * input; or `KeyboardInterruptInBlock`; or the inputs ran out (the real
   * reader then returns empty lines forever and the loop never ends).
   */
  datatype Generated = Built(block: Block, next: nat) | Interrupted | Exhausted

  /** The closing character an opener line asks for, if any: `{` is checked before `(`. */
  function CloserOf(code: string): Option<char>
  {
    if EndsWith(StripSpace(code), '{') then Some('}')
    else if EndsWith(StripSpace(code), '(') then Some(')')
    else None
  }

  /** `generate(code)` reading inputs from `pos`. */
  function Gen(code: string, input: seq<Input>, pos: nat): (r: Generated)
    requires pos <= |input|
    ensures r.Built? ==> pos <= r.next <= |input|
    decreases |input| - pos, 1
  {
    match CloserOf(code)
    case None => Built(NewBlock(code), pos)
    case Some(close) => Fill(NewBlock(code), close, input, pos)
  }

  /** `continuing_get_input(close, b)` reading inputs from `pos`. */
  function Fill(b: Block, close: char, input: seq<Input>, pos: nat): (r: Generated)
    requires pos <= |input|
    ensures r.Built? ==> pos < r.next <= |input|
    decreases |input| - pos, 0
  {
    if pos == |input| then Exhausted
    else match input[pos]
      case Interrupt => Interrupted
      case Typed(line) =>
        if EndsWith(line, close) then Built(Append(b, Line(line)), pos + 1)
        else match Gen(line, input, pos + 1)
          case Built(c, next) => Fill(Append(b, Nested(c)), close, input, next)
          case other => other
  }

  /** The typed texts of a stretch of inputs. */
  function Texts(xs: seq<Input>): seq<string>
  {
    if xs == [] then [] else (match xs[0] case Typed(t) => [t] case Interrupt => []) + Texts(xs[1..])
  }

  /** No interrupt among the inputs. */
  predicate AllTyped(xs: seq<Input>)
  {
    forall i :: 0 <= i < |xs| ==> xs[i].Typed?
  }

  lemma {:induction false} TextsAppend(xs: seq<Input>, ys: seq<Input>)
    ensures Texts(xs + ys) == Texts(xs) + Texts(ys)
  {
    if xs == [] {
      assert xs + ys == ys;
    } else {
      assert (xs + ys)[0] == xs[0] && (xs + ys)[1..] == xs[1..] + ys;
      TextsAppend(xs[1..], ys);
    }
  }

  /** Appending an element adds its lines at the end of the flattening. */
  lemma FlattenAppend(b: Block, e: Elem)
    ensures Flatten(Append(b, e)) == Flatten(b) + FlattenElem(e)
  {
    var a := Append(b, e);
    FlattenUnfold(b);
    FlattenUnfold(a);
    assert a.opener == b.opener && a.rest == b.rest + [e];
    FlattenElemsAppend(b.rest, [e]);
    assert FlattenElems([e]) == FlattenElem(e) + FlattenElems([]);
    Regroup([b.opener], FlattenElems(b.rest), FlattenElem(e));
  }

  lemma FlattenNew(code: string)
    ensures Flatten(NewBlock(code)) == [code]
  {
  }

  /**
   * A built block is exactly the lines it consumed: flattening it gives the
   * opener followed by the consumed inputs, none of which was an interrupt.
   */
  lemma {:induction false} GenConsumes(code: string, input: seq<Input>, pos: nat)
    requires pos <= |input| && Gen(code, input, pos).Built?
    ensures var g := Gen(code, input, pos);
      AllTyped(input[pos..g.next]) && Flatten(g.block) == [code] + Texts(input[pos..g.next])
    decreases |input| - pos, 1
  {
    assert input[pos..pos] == [];
    FlattenNew(code);
    assert Texts([]) == [];
    match CloserOf(code)
    case None =>
    case Some(close) => FillConsumes(NewBlock(code), close, input, pos);
  }

  lemma {:induction false} FillConsumes(b: Block, close: char, input: seq<Input>, pos: nat)
    requires pos <= |input| && Fill(b, close, input, pos).Built?
    ensures var g := Fill(b, close, input, pos);
      AllTyped(input[pos..g.next]) && Flatten(g.block) == Flatten(b) + Texts(input[pos..g.next])
    decreases |input| - pos, 0
  {
    var line := input[pos].text;
    if EndsWith(line, close) {
      FlattenAppend(b, Line(line));
      assert input[pos..pos + 1] == [input[pos]];
      assert Texts([input[pos]]) == [line] + Texts([]);
    } else {
      var g := Gen(line, input, pos + 1);
      var c, next := g.block, g.next;
      var b' := Append(b, Nested(c));
      FillUnfold(b, close, input, pos);
      var last := Fill(b', close, input, next).next;
      GenConsumes(line, input, pos + 1);
      FlattenAppend(b, Nested(c));
      FillConsumes(b', close, input, next);
      ConsumedSplit(input, pos, next, last);
      var t1, t2 := Texts(input[pos + 1..next]), Texts(input[next..last]);
      assert Flatten(b') == Flatten(b) + ([line] + t1);
      Regroup(Flatten(b), [line] + t1, t2);
    }
  }

  lemma Regroup(a: seq<string>, b: seq<string>, c: seq<string>)
    ensures a + b + c == a + (b + c)
  {
  }

  /** Reading one line, then a stretch, then another: the texts and the no-interrupt fact compose. */
  lemma ConsumedSplit(input: seq<Input>, pos: nat, next: nat, last: nat)
    requires pos < next <= last <= |input| && input[pos].Typed?
    requires AllTyped(input[pos + 1..next]) && AllTyped(input[next..last])
    ensures AllTyped(input[pos..last])
    ensures Texts(input[pos..last]) == [input[pos].text] + Texts(input[pos + 1..next]) + Texts(input[next..last])
  {
    assert input[pos..last] == [input[pos]] + (input[pos + 1..next] + input[next..last]);
    TextsAppend(input[pos + 1..next], input[next..last]);
    assert Texts(input[pos..last]) == [input[pos].text] + Texts(input[pos + 1..next] + input[next..last]);
    forall i | 0 <= i < last - pos ensures input[pos..last][i].Typed? {
      if 0 < i < next - pos {
        assert input[pos..last][i] == input[pos + 1..next][i - 1];
      } else if i >= next - pos {
        assert input[pos..last][i] == input[next..last][i - (next - pos)];
      }
    }
  }

  /**
   * The shape of a block built from an opener: its last element is the
   * closing line, which ends with the closer, and every element before it is a
   * nested block. A line that opens nothing is a block of its own line alone,
   * and reads no input.
   */
  lemma {:induction false} GenShape(code: string, input: seq<Input>, pos: nat)
    requires pos <= |input| && Gen(code, input, pos).Built?
    ensures var g := Gen(code, input, pos);
      match CloserOf(code)
      case None => g.block == NewBlock(code) && g.next == pos
      case Some(close) =>
        g.block.opener == code && g.block.rest != []
        && Last(g.block.rest).Line? && EndsWith(Last(g.block.rest).text, close)
        && forall i :: 0 <= i < |g.block.rest| - 1 ==> g.block.rest[i].Nested?
  {
    match CloserOf(code)
    case None =>
    case Some(close) =>
      FillShape(NewBlock(code), close, input, pos);
      var r := Gen(code, input, pos).block;
      assert forall i :: 0 <= i < |r.rest| - 1 ==> r.rest[i].Nested?;
  }

  lemma {:induction false} FillShape(b: Block, close: char, input: seq<Input>, pos: nat)
    requires pos <= |input| && Fill(b, close, input, pos).Built?
    ensures ShapedAs(Fill(b, close, input, pos).block, b, close)
    decreases |input| - pos
  {
    var line := input[pos].text;
    if EndsWith(line, close) {
      assert Fill(b, close, input, pos).block == Append(b, Line(line));
    } else {
      var g := Gen(line, input, pos + 1);
      var b' := Append(b, Nested(g.block));
      FillUnfold(b, close, input, pos);
      FillShape(b', close, input, g.next);
      ShapedAsAppend(Fill(b', close, input, g.next).block, b, g.block, close);
    }
  }

  /** A line that does not close the block adds the nested block built from it, and reading goes on after it. */
  lemma FillUnfold(b: Block, close: char, input: seq<Input>, pos: nat)
    requires pos < |input| && input[pos].Typed? && !EndsWith(input[pos].text, close)
    requires Gen(input[pos].text, input, pos + 1).Built?
    ensures var g := Gen(input[pos].text, input, pos + 1);
      Fill(b, close, input, pos) == Fill(Append(b, Nested(g.block)), close, input, g.next)
  {
  }

  /** `r` is `b` followed by more nested blocks and a final line ending with `close`. */
  predicate ShapedAs(r: Block, b: Block, close: char)
  {
    r.opener == b.opener && |r.rest| > |b.rest| && r.rest[..|b.rest|] == b.rest
    && Last(r.rest).Line? && EndsWith(Last(r.rest).text, close)
    && forall i :: |b.rest| <= i < |r.rest| - 1 ==> r.rest[i].Nested?
  }

  lemma ShapedAsAppend(r: Block, b: Block, c: Block, close: char)
    requires ShapedAs(r, Append(b, Nested(c)), close)
    ensures ShapedAs(r, b, close)
  {
    var n := |b.rest|;
    assert r.rest[n] == Append(b, Nested(c)).rest[n];
    assert r.rest[..n] == r.rest[..n + 1][..n];
  }

  /**
   * `BlockGenerator.generate`: builds the block the way the source does, one
   * continuation line at a time, and agrees with `Gen`.
   */
  method Generate(code: string, input: seq<Input>, pos: nat) returns (r: Generated)
    requires pos <= |input|
    ensures r == Gen(code, input, pos)
    decreases |input| - pos, 1
  {
    var block := NewBlock(code);
    var closer := CloserOf(code);
    match closer {
      case None =>
        r := Built(block, pos);
      case Some(close) =>
        r := ContinuingGetInput(close, block, input, pos);
    }
  }

  /** `continuing_get_input`: appends a nested block per line until a line ends with the closer, then the closer. */
  method ContinuingGetInput(close: char, b: Block, input: seq<Input>, pos: nat) returns (r: Generated)
    requires pos <= |input|
    ensures r == Fill(b, close, input, pos)
    decreases |input| - pos, 0
  {
    var block := b;
    var p := pos;
    while true
      invariant pos <= p <= |input|
      invariant Fill(block, close, input, p) == Fill(b, close, input, pos)
      decreases |input| - p
    {
      if p == |input| {
        return Exhausted;
      }
      match input[p] {
        case Interrupt =>
          return Interrupted;
        case Typed(line) =>
          if EndsWith(line, close) {
            block := Append(block, Line(line));
            return Built(block, p + 1);
          }
          var inner := Generate(line, input, p + 1);
          if !inner.Built? {
            return inner;
          }
          block := Append(block, Nested(inner.block));
          p := inner.next;
      }
    }
  }

  /**
   * Reading stops at an interrupt: with an interrupt at `k`, `generate` does
   * what it does on the inputs before `k`, except that where those run out
   * (the block is still open when the interrupt comes) the result is
   * `KeyboardInterruptInBlock`.
   */
  lemma {:induction false} GenUpToInterrupt(code: string, input: seq<Input>, pos: nat, k: nat)
    requires pos <= k < |input| && input[k] == Interrupt
    ensures var p := Gen(code, input[..k], pos);
      Gen(code, input, pos) == if p == Exhausted then Interrupted else p
    decreases k - pos, 1
  {
    match CloserOf(code)
    case None =>
    case Some(close) => FillUpToInterrupt(NewBlock(code), close, input, pos, k);
  }

  lemma {:induction false} FillUpToInterrupt(b: Block, close: char, input: seq<Input>, pos: nat, k: nat)
    requires pos <= k < |input| && input[k] == Interrupt
    ensures var p := Fill(b, close, input[..k], pos);
      Fill(b, close, input, pos) == if p == Exhausted then Interrupted else p
    decreases k - pos, 0
  {
    var pre := input[..k];
    if pos < k {
      assert pre[pos] == input[pos];
      match input[pos]
      case Interrupt =>
      case Typed(line) =>
        if !EndsWith(line, close) {
          GenUpToInterrupt(line, input, pos + 1, k);
          match Gen(line, pre, pos + 1)
          case Built(c, next) =>
            FillUpToInterrupt(Append(b, Nested(c)), close, input, next, k);
          case Interrupted =>
          case Exhausted =>
        }
    }
  }

  /** An interrupt typed while the block is still open, before its closing line, raises `KeyboardInterruptInBlock`. */
  lemma GenInterrupted(code: string, input: seq<Input>, pos: nat, k: nat)
    requires pos <= k < |input| && input[k] == Interrupt
    requires Gen(code, input[..k], pos) == Exhausted
    ensures Gen(code, input, pos) == Interrupted
  {
    GenUpToInterrupt(code, input, pos, k);
  }

  /** An interrupt as the first continuation line of an opener that asks for a closer raises `KeyboardInterruptInBlock`. */
  lemma GenInterruptFirst(code: string, input: seq<Input>, pos: nat)
    requires CloserOf(code).Some? && pos < |input| && input[pos] == Interrupt
    ensures Gen(code, input, pos) == Interrupted
  {
    assert Gen(code, input[..pos], pos) == Exhausted;
    GenInterrupted(code, input, pos, pos);
  }
}
