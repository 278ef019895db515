/** Properties of the grammar functions: what each level answers, and what whole lines parse to. */
module GrammarProperties {
  import opened Options
  import opened ParseResults
  import opened Lexical
  import opened Grammar
  import E = Expression

  /**
    A base that starts with a run of number characters is that number: its
    value, or the "Incorrect number" error at the start of the run, with the
    cursor after the whole run.
  */
  lemma NumberRunBase(line: string, i: nat, j: nat)
    requires i < j <= |line|
    requires forall k | i <= k < j :: IsNumberChar(Some(line[k]))
    requires !IsNumberChar(Lookahead(line, j))
    ensures ParseBaseFrom(line, i) == ParseNumberFrom(line, i)
    ensures ParseNumberFrom(line, i) ==
              if ParseFloat(line[i..j]).Some? then Step(Present(E.Const(ParseFloat(line[i..j]).value)), j)
              else Step(Error("Incorrect number", i), j)
  {
    assert IsNumberChar(Some(line[i]));
    SpaceEndOfRun(line, i, i);
    NumberEndOfRun(line, i, j);
  }

  /** A single digit that nothing numeric follows is a constant base with the digit's value. */
  lemma DigitBase(line: string, i: nat)
    requires i < |line| && IsAsciiDigit(line[i])
    requires !IsNumberChar(Lookahead(line, i + 1))
    ensures ParseBaseFrom(line, i) == Step(Present(E.Const(DigitValue(line[i]) as real)), i + 1)
  {
    NumberRunBase(line, i, i + 1);
    assert line[i..i + 1] == [line[i]];
    DigitLiteral(line[i]);
  }

  /** What a sign does to the base after it: a tree is negated, anything else is passed on. */
  function Negate(st: Step): (ns: Step)
    ensures ns.pos == st.pos
  {
    if st.result.Present? then Step(Present(E.Neg(st.result.tree)), st.pos) else st
  }

  /**
    A unary sign, `-` or `+` alike, wraps the base after it in a negation;
    an absent or failed base is passed on unchanged, cursor included.
  */
  lemma SignBase(line: string, i: nat)
    requires i < |line| && (line[i] == '-' || line[i] == '+')
    ensures ParseBaseFrom(line, i) == Negate(ParseBaseFrom(line, i + 1))
  {
    assert Lookahead(line, i) == Some(line[i]);
    SpaceEndOfRun(line, i, i);
  }

  /**
    A sequence of steps, each the negation of the next, ends where the last
    one ends; a tree at the end comes back wrapped in one negation per step.
  */
  lemma {:induction false} NegateRun(steps: seq<Step>, n: nat)
    requires |steps| == n + 1
    requires forall k | 0 <= k < n :: steps[k] == Negate(steps[k + 1])
    ensures steps[0].pos == steps[n].pos
    ensures steps[n].result.Present? ==> steps[0].result == Present(E.Negated(steps[n].result.tree, n))
    ensures !steps[n].result.Present? ==> steps[0].result == steps[n].result
    decreases n
  {
    if n > 0 {
      NegateRun(steps[1..], n - 1);
      assert steps[1..][n - 1] == steps[n];
      assert steps[0] == Negate(steps[1..][0]);
    }
  }

  /**
    A run of `n` unary signs before a base wraps the base's tree in `n`
    negations; a `+` negates exactly as a `-` does. An absent or failed base
    is passed on unchanged.
  */
  lemma SignRun(line: string, i: nat, n: nat)
    requires i + n <= |line|
    requires forall k | i <= k < i + n :: line[k] == '-' || line[k] == '+'
    ensures var inner := ParseBaseFrom(line, i + n);
            var st := ParseBaseFrom(line, i);
            && st.pos == inner.pos
            && (inner.result.Present? ==> st.result == Present(E.Negated(inner.result.tree, n)))
            && (!inner.result.Present? ==> st.result == inner.result)
  {
    var steps := seq(n + 1, k requires 0 <= k <= n => ParseBaseFrom(line, i + k));
    forall k | 0 <= k < n
      ensures steps[k] == Negate(steps[k + 1])
    {
      SignBase(line, i + k);
      assert i + k + 1 == i + (k + 1);
    }
    NegateRun(steps, n);
    assert steps[0] == ParseBaseFrom(line, i);
    assert steps[n] == ParseBaseFrom(line, i + n);
  }

  /** Starting anywhere inside the blanks before a token gives the same step and cursor. */
  lemma BlanksBeforeToken(line: string, i: nat, j: nat)
    requires i <= j <= |line| && j <= SpaceEnd(line, i)
    ensures ParseNumberFrom(line, i) == ParseNumberFrom(line, j)
    ensures ParseBaseFrom(line, i) == ParseBaseFrom(line, j)
    ensures ParseMulFrom(line, i) == ParseMulFrom(line, j)
    ensures ParseAddFrom(line, i) == ParseAddFrom(line, j)
  {
    SpaceEndSkipsBlanks(line, i);
    SpaceEndOfRun(line, j, SpaceEnd(line, i));
    assert ParseNumberFrom(line, i) == ParseNumberFrom(line, j);
    assert ParseBaseFrom(line, i) == ParseBaseFrom(line, j);
  }

  /** A line that holds only blanks before its end (or before a line terminator) has nothing to parse. */
  lemma BlankLineIsAbsent(line: string, n: nat)
    requires n <= |line|
    requires forall k | 0 <= k < n :: line[k] == ' ' || line[k] == '\t'
    requires Lookahead(line, n) == None
    ensures ParseLine(line) == Absent
  {
    SpaceEndOfRun(line, 0, n);
    SpaceEndOfRun(line, n, n);
    assert ParseNumberFrom(line, n) == Step(Absent, n);
    assert ParseBaseFrom(line, 0) == Step(Absent, n);
    assert ParseMulFrom(line, 0) == Step(Absent, n);
    assert ParseAddFrom(line, 0) == Step(Absent, n);
  }

  predicate IsAddChar(c: char)
  {
    c == '+' || c == '-'
  }

  /** Single digits `ds` joined by the additive operators `ops`, without blanks. */
  function Chain(ds: seq<char>, ops: seq<char>): (s: string)
    requires |ds| == |ops| + 1
    ensures |s| == 2 * |ops| + 1
  {
    if ops == [] then [ds[0]] else [ds[0], ops[0]] + Chain(ds[1..], ops[1..])
  }

  /** The tree that leans to the right: the first digit is the left operand of the first operator, the rest its right operand. */
  function RightNested(ds: seq<char>, ops: seq<char>): (t: E.Expr)
    requires |ds| == |ops| + 1
    requires forall k | 0 <= k < |ds| :: IsAsciiDigit(ds[k])
    ensures ops == [] <==> t.Const?
  {
    var leaf := E.Const(DigitValue(ds[0]) as real);
    if ops == [] then leaf
    else AddNode(if ops[0] == '+' then Add else Sub, leaf, RightNested(ds[1..], ops[1..]))
  }

  /** A lookahead that ends a sum: not blank, not part of a number, not an operator. */
  predicate EndsSum(c: Option<char>)
  {
    !IsSpace(c) && !IsNumberChar(c) && MulOpOf(c).None? && AddOpOf(c).None?
  }

  /** The character layout of a chain: digit `k` at `2k`, operator `k` at `2k + 1`. */
  lemma {:induction false} ChainAt(ds: seq<char>, ops: seq<char>, k: nat)
    requires |ds| == |ops| + 1 && k <= |ops|
    ensures Chain(ds, ops)[2 * k] == ds[k]
    ensures k < |ops| ==> Chain(ds, ops)[2 * k + 1] == ops[k]
    decreases k
  {
    if k > 0 {
      ChainAt(ds[1..], ops[1..], k - 1);
      assert Chain(ds, ops) == [ds[0], ops[0]] + Chain(ds[1..], ops[1..]);
    }
  }

  /** What an additive operator and the digit before it do to the sum after them. */
  function Join(op: char, d: char, st: Step): (js: Step)
    requires IsAsciiDigit(d)
    ensures js.pos == st.pos
  {
    if st.result.Present?
    then Step(Present(AddNode(if op == '+' then Add else Sub, E.Const(DigitValue(d) as real), st.result.tree)), st.pos)
    else st
  }

  /** Only blanks (spaces and tabs) from index `a` up to index `b`. */
  predicate BlanksBetween(line: string, a: nat, b: nat)
    requires a <= b <= |line|
  {
    forall k | a <= k < b :: line[k] == ' ' || line[k] == '\t'
  }

  /**
    A digit at `d` followed, after blanks, at `e` by something that cannot
    continue a number or a product: the digit is the whole product, and the
    cursor stops at `e`.
  */
  lemma DigitOperand(line: string, d: nat, e: nat)
    requires d < e <= |line| && IsAsciiDigit(line[d]) && BlanksBetween(line, d + 1, e)
    requires var c := Lookahead(line, e); !IsSpace(c) && !IsNumberChar(c) && MulOpOf(c).None?
    ensures ParseMulFrom(line, d) == Step(Present(E.Const(DigitValue(line[d]) as real)), e)
  {
    SpaceEndOfRun(line, d + 1, e);
    assert !IsNumberChar(Lookahead(line, d + 1)) by {
      if d + 1 < e {
        assert Lookahead(line, d + 1) == Some(line[d + 1]);
      }
    }
    DigitBase(line, d);
    FirstOperandOnly(line, d);
  }

  /** Blanks from `i` up to a digit at `d`: every level starting at `i` answers as it does at `d`. */
  lemma BlanksBeforeDigit(line: string, i: nat, d: nat)
    requires i <= d < |line| && BlanksBetween(line, i, d) && IsAsciiDigit(line[d])
    ensures ParseAddFrom(line, i) == ParseAddFrom(line, d)
  {
    assert Lookahead(line, d) == Some(line[d]);
    SpaceEndOfRun(line, i, d);
    BlanksBeforeToken(line, i, d);
  }

  /**
    A digit at `d`, an additive operator at `o`, and only blanks from `i` to
    the digit and between the digit and the operator: the digit joins the
    sum parsed after the operator.
  */
  lemma ChainStep(line: string, i: nat, d: nat, o: nat)
    requires i <= d < o < |line|
    requires BlanksBetween(line, i, d) && BlanksBetween(line, d + 1, o)
    requires IsAsciiDigit(line[d]) && IsAddChar(line[o])
    ensures ParseAddFrom(line, i) == Join(line[o], line[d], ParseAddFrom(line, o + 1))
  {
    BlanksBeforeDigit(line, i, d);
    assert Lookahead(line, o) == Some(line[o]);
    DigitOperand(line, d, o);
    assert SpaceEnd(line, o) == o by {
      SpaceEndOfRun(line, o, o);
    }
    var op := if line[o] == '+' then Add else Sub;
    assert AddOpOf(Lookahead(line, o)) == Some(op);
    var lhs := Step(Present(E.Const(DigitValue(line[d]) as real)), o);
    assert ParseAddFrom(line, d) == AddRest(line, d, lhs);
  }

  /**
    A digit at `d` with only blanks before it from `i`, and only blanks after
    it up to `end`, where something that ends a sum follows: the digit is the
    whole sum, and the cursor stops at `end`.
  */
  lemma ChainEnd(line: string, i: nat, d: nat, end: nat)
    requires i <= d < end <= |line|
    requires BlanksBetween(line, i, d) && BlanksBetween(line, d + 1, end)
    requires IsAsciiDigit(line[d]) && EndsSum(Lookahead(line, end))
    ensures ParseAddFrom(line, i) == Step(Present(E.Const(DigitValue(line[d]) as real)), end)
  {
    BlanksBeforeDigit(line, i, d);
    DigitOperand(line, d, end);
    SpaceEndOfRun(line, end, end);
    FirstOperandOnly(line, d);
  }

  /** Steps that each join the next one, ending in a single digit, build the right-leaning tree. */
  lemma {:induction false} JoinRun(steps: seq<Step>, ds: seq<char>, ops: seq<char>, end: nat)
    requires |ds| == |ops| + 1 == |steps|
    requires forall k | 0 <= k < |ds| :: IsAsciiDigit(ds[k])
    requires forall k | 0 <= k < |ops| :: steps[k] == Join(ops[k], ds[k], steps[k + 1])
    requires steps[|ops|] == Step(Present(E.Const(DigitValue(ds[|ops|]) as real)), end)
    ensures steps[0] == Step(Present(RightNested(ds, ops)), end)
    decreases |ops|
  {
    if ops != [] {
      JoinRun(steps[1..], ds[1..], ops[1..], end);
    }
  }

  /** Positions in increasing order, all from `i` up to, but not including, `end`. */
  predicate OrderedWithin(pos: seq<nat>, i: nat, end: nat)
  {
    && (forall k | 0 <= k < |pos| :: i <= pos[k] < end)
    && (forall j, k | 0 <= j < k < |pos| :: pos[j] < pos[k])
  }

  /** The chain's tokens at the positions: digit `k` at `pos[2k]` and operator `k` at `pos[2k + 1]`. */
  predicate TokensAt(line: string, ds: seq<char>, ops: seq<char>, pos: seq<nat>)
    requires |ds| == |ops| + 1 && |pos| == 2 * |ops| + 1
    requires forall k | 0 <= k < |pos| :: pos[k] < |line|
  {
    && (forall k | 0 <= k < |ds| :: line[pos[2 * k]] == ds[k])
    && (forall k | 0 <= k < |ops| :: line[pos[2 * k + 1]] == ops[k])
  }

  /** Every character from `i` up to `end` that is not at one of the positions is a blank. */
  predicate BlanksElsewhere(line: string, i: nat, end: nat, pos: seq<nat>)
    requires end <= |line|
  {
    forall j | i <= j < end && j !in pos :: line[j] == ' ' || line[j] == '\t'
  }

  /**
    The tokens of a chain laid out in a line with blanks around them: digit
    `k` at `pos[2k]` and operator `k` at `pos[2k + 1]`, in increasing order,
    between `i` and `end`. Every other character from `i` up to `end` is a
    blank, and something that ends a sum follows at `end`.
  */
  predicate SpacedChainAt(line: string, i: nat, ds: seq<char>, ops: seq<char>, pos: seq<nat>, end: nat)
  {
    && |ds| == |ops| + 1 && |pos| == 2 * |ops| + 1 && i < end <= |line|
    && OrderedWithin(pos, i, end)
    && TokensAt(line, ds, ops, pos)
    && BlanksElsewhere(line, i, end, pos)
    && EndsSum(Lookahead(line, end))
  }

  /** Where the part of a spaced chain that begins with digit `k` starts: at `i`, or right after operator `k - 1`. */
  function TokenStart(i: nat, pos: seq<nat>, k: nat): (s: nat)
    requires 0 < k ==> 2 * k - 1 < |pos|
    ensures 0 < k ==> s == pos[2 * k - 1] + 1
  {
    if k == 0 then i else pos[2 * k - 1] + 1
  }

  /** In a spaced chain, only blanks stand strictly between two consecutive tokens. */
  lemma SpacedChainGap(line: string, i: nat, ds: seq<char>, ops: seq<char>, pos: seq<nat>, end: nat, m: nat)
    requires SpacedChainAt(line, i, ds, ops, pos, end) && m < 2 * |ops|
    ensures pos[m] < pos[m + 1] && BlanksBetween(line, pos[m] + 1, pos[m + 1])
  {
    forall j | pos[m] + 1 <= j < pos[m + 1]
      ensures line[j] == ' ' || line[j] == '\t'
    {
      forall q | 0 <= q < |pos|
        ensures pos[q] != j
      {
        if q < m {
          assert pos[q] < pos[m];
        } else if q > m + 1 {
          assert pos[m + 1] < pos[q];
        }
      }
    }
  }

  /** In a spaced chain, only blanks stand between the start of part `k` and its digit. */
  lemma SpacedChainDigit(line: string, i: nat, ds: seq<char>, ops: seq<char>, pos: seq<nat>, end: nat, k: nat)
    requires SpacedChainAt(line, i, ds, ops, pos, end) && k <= |ops|
    ensures TokenStart(i, pos, k) <= pos[2 * k] < |line|
    ensures BlanksBetween(line, TokenStart(i, pos, k), pos[2 * k])
    ensures line[pos[2 * k]] == ds[k]
  {
    if k > 0 {
      SpacedChainGap(line, i, ds, ops, pos, end, 2 * k - 1);
      assert 2 * k - 1 + 1 == 2 * k;
    } else {
      forall j | i <= j < pos[0]
        ensures line[j] == ' ' || line[j] == '\t'
      {
        forall q | 0 < q < |pos|
          ensures pos[q] != j
        {
          assert pos[0] < pos[q];
        }
      }
    }
  }

  /** In a spaced chain, only blanks stand between the last digit and the end. */
  lemma SpacedChainTail(line: string, i: nat, ds: seq<char>, ops: seq<char>, pos: seq<nat>, end: nat)
    requires SpacedChainAt(line, i, ds, ops, pos, end)
    ensures pos[2 * |ops|] < end && BlanksBetween(line, pos[2 * |ops|] + 1, end)
  {
    var last := 2 * |ops|;
    forall j | pos[last] + 1 <= j < end
      ensures line[j] == ' ' || line[j] == '\t'
    {
      forall q | 0 <= q < last
        ensures pos[q] != j
      {
        assert pos[q] < pos[last];
      }
    }
  }

  /** Part `k` of a spaced chain, before the last digit, joins the part after it. */
  lemma SpacedChainLink(line: string, i: nat, ds: seq<char>, ops: seq<char>, pos: seq<nat>, end: nat, k: nat)
    requires SpacedChainAt(line, i, ds, ops, pos, end) && k < |ops|
    requires IsAsciiDigit(ds[k]) && IsAddChar(ops[k])
    ensures ParseAddFrom(line, TokenStart(i, pos, k)) == Join(ops[k], ds[k], ParseAddFrom(line, TokenStart(i, pos, k + 1)))
  {
    SpacedChainDigit(line, i, ds, ops, pos, end, k);
    SpacedChainGap(line, i, ds, ops, pos, end, 2 * k);
    assert pos[2 * k + 1] < end && line[pos[2 * k + 1]] == ops[k];
    ChainStep(line, TokenStart(i, pos, k), pos[2 * k], pos[2 * k + 1]);
    assert TokenStart(i, pos, k + 1) == pos[2 * k + 1] + 1;
  }

  /** The last part of a spaced chain is its last digit, and the cursor stops at the end of the chain. */
  lemma SpacedChainLast(line: string, i: nat, ds: seq<char>, ops: seq<char>, pos: seq<nat>, end: nat)
    requires SpacedChainAt(line, i, ds, ops, pos, end) && IsAsciiDigit(ds[|ops|])
    ensures ParseAddFrom(line, TokenStart(i, pos, |ops|)) == Step(Present(E.Const(DigitValue(ds[|ops|]) as real)), end)
  {
    SpacedChainDigit(line, i, ds, ops, pos, end, |ops|);
    SpacedChainTail(line, i, ds, ops, pos, end);
    ChainEnd(line, TokenStart(i, pos, |ops|), pos[2 * |ops|], end);
  }

  /**
    Additive operators associate to the right, and blanks around the tokens
    change nothing: a chain such as `8 - 3-2` parses to `8-(3-2)`, whatever
    the length of the chain, the blanks between its tokens, where it starts
    and what ends it.
  */
  lemma SpacedChainRightNested(line: string, i: nat, ds: seq<char>, ops: seq<char>, pos: seq<nat>, end: nat)
    requires SpacedChainAt(line, i, ds, ops, pos, end)
    requires forall k | 0 <= k < |ds| :: IsAsciiDigit(ds[k])
    requires forall k | 0 <= k < |ops| :: IsAddChar(ops[k])
    ensures ParseAddFrom(line, i) == Step(Present(RightNested(ds, ops)), end)
  {
    var n := |ops|;
    forall k | 0 <= k <= n
      ensures TokenStart(i, pos, k) <= |line|
    {
      if k > 0 {
        assert pos[2 * k - 1] < end;
      }
    }
    var steps := seq(n + 1, k requires 0 <= k <= n => ParseAddFrom(line, TokenStart(i, pos, k)));
    forall k | 0 <= k < n
      ensures steps[k] == Join(ops[k], ds[k], steps[k + 1])
    {
      assert steps[k] == ParseAddFrom(line, TokenStart(i, pos, k));
      assert steps[k + 1] == ParseAddFrom(line, TokenStart(i, pos, k + 1));
      SpacedChainLink(line, i, ds, ops, pos, end, k);
    }
    SpacedChainLast(line, i, ds, ops, pos, end);
    JoinRun(steps, ds, ops, end);
    assert steps[0] == ParseAddFrom(line, i);
  }

  /** The positions `i`, `i + 1`, ..., `i + m - 1`. */
  function Consecutive(i: nat, m: nat): (pos: seq<nat>)
    ensures |pos| == m && forall k | 0 <= k < m :: pos[k] == i + k
  {
    seq(m, k requires 0 <= k < m => i + k)
  }

  /** A chain written without blanks is a spaced chain whose tokens stand at consecutive positions. */
  lemma PlainChainIsSpaced(line: string, i: nat, ds: seq<char>, ops: seq<char>)
    requires |ds| == |ops| + 1
    requires i + |Chain(ds, ops)| <= |line| && line[i..i + |Chain(ds, ops)|] == Chain(ds, ops)
    requires EndsSum(Lookahead(line, i + |Chain(ds, ops)|))
    ensures SpacedChainAt(line, i, ds, ops, Consecutive(i, 2 * |ops| + 1), i + 2 * |ops| + 1)
  {
    var pos, end := Consecutive(i, 2 * |ops| + 1), i + 2 * |ops| + 1;
    ConsecutiveOrdered(i, 2 * |ops| + 1);
    PlainChainTokens(line, i, ds, ops);
    ConsecutiveFills(i, 2 * |ops| + 1);
    assert BlanksElsewhere(line, i, end, pos);
  }

  /** The consecutive positions are ordered and lie between `i` and `i + m`. */
  lemma ConsecutiveOrdered(i: nat, m: nat)
    ensures OrderedWithin(Consecutive(i, m), i, i + m)
  {
  }

  /** Every index from `i` up to `i + m` is one of the consecutive positions. */
  lemma ConsecutiveFills(i: nat, m: nat)
    ensures forall j | i <= j < i + m :: j in Consecutive(i, m)
  {
    var pos := Consecutive(i, m);
    forall j | i <= j < i + m
      ensures j in pos
    {
      assert pos[j - i] == j;
    }
  }

  /** A chain written without blanks has its tokens at the consecutive positions. */
  lemma PlainChainTokens(line: string, i: nat, ds: seq<char>, ops: seq<char>)
    requires |ds| == |ops| + 1
    requires i + |Chain(ds, ops)| <= |line| && line[i..i + |Chain(ds, ops)|] == Chain(ds, ops)
    ensures TokensAt(line, ds, ops, Consecutive(i, 2 * |ops| + 1))
  {
    var pos := Consecutive(i, 2 * |ops| + 1);
    forall k | 0 <= k < |ds|
      ensures line[pos[2 * k]] == ds[k]
    {
      ChainCharsAt(line, i, ds, ops, k);
    }
    forall k | 0 <= k < |ops|
      ensures line[pos[2 * k + 1]] == ops[k]
    {
      ChainCharsAt(line, i, ds, ops, k);
    }
  }

  /** Where a chain sits in the line: digit `k` at offset `2k`, operator `k` right after it. */
  lemma ChainCharsAt(line: string, i: nat, ds: seq<char>, ops: seq<char>, k: nat)
    requires |ds| == |ops| + 1 && k <= |ops|
    requires i + |Chain(ds, ops)| <= |line| && line[i..i + |Chain(ds, ops)|] == Chain(ds, ops)
    ensures line[i + 2 * k] == ds[k]
    ensures k < |ops| ==> line[i + 2 * k + 1] == ops[k]
  {
    var c := Chain(ds, ops);
    ChainAt(ds, ops, k);
    assert line[i + 2 * k] == c[2 * k];
    if k < |ops| {
      assert line[i + 2 * k + 1] == c[2 * k + 1];
    }
  }

  /**
    With only blanks left before the end of the line (or its terminator),
    every level finds nothing and moves the cursor past the blanks.
  */
  lemma NothingLeft(line: string, i: nat)
    requires i <= |line| && Lookahead(line, SpaceEnd(line, i)) == None
    ensures ParseBaseFrom(line, i) == Step(Absent, SpaceEnd(line, i))
    ensures ParseMulFrom(line, i) == Step(Absent, SpaceEnd(line, i))
    ensures ParseAddFrom(line, i) == Step(Absent, SpaceEnd(line, i))
  {
    var s := SpaceEnd(line, i);
    SpaceEndOfRun(line, s, s);
    assert ParseNumberFrom(line, s) == Step(Absent, s);
    assert ParseBaseFrom(line, i) == Step(Absent, s);
    assert ParseMulFrom(line, i) == Step(Absent, s);
  }

  /** A sum that reaches the end of the line is the line's result, error or not. */
  lemma WholeLine(line: string)
    requires ParseAddFrom(line, 0).pos == |line|
    ensures ParseLine(line) == ParseAddFrom(line, 0).result
  {
    SpaceEndOfRun(line, |line|, |line|);
  }

  /** A whole line that is such a chain parses to the right-leaning tree. */
  lemma ChainLine(ds: seq<char>, ops: seq<char>)
    requires |ds| == |ops| + 1
    requires forall k | 0 <= k < |ds| :: IsAsciiDigit(ds[k])
    requires forall k | 0 <= k < |ops| :: IsAddChar(ops[k])
    ensures ParseLine(Chain(ds, ops)) == Present(RightNested(ds, ops))
  {
    var line := Chain(ds, ops);
    assert line[0..|line|] == line;
    PlainChainIsSpaced(line, 0, ds, ops);
    SpacedChainRightNested(line, 0, ds, ops, Consecutive(0, |line|), |line|);
    SpaceEndOfRun(line, |line|, |line|);
  }

  /**
    Blanks between the tokens of a chain do not change the answer: a whole
    line that holds the chain's tokens with blanks around them parses to the
    right-leaning tree, exactly as the chain written without blanks does.
  */
  lemma SpacedChainLine(line: string, ds: seq<char>, ops: seq<char>, pos: seq<nat>, end: nat)
    requires SpacedChainAt(line, 0, ds, ops, pos, end) && Lookahead(line, end) == None
    requires forall k | 0 <= k < |ds| :: IsAsciiDigit(ds[k])
    requires forall k | 0 <= k < |ops| :: IsAddChar(ops[k])
    ensures ParseLine(line) == Present(RightNested(ds, ops))
    ensures ParseLine(line) == ParseLine(Chain(ds, ops))
  {
    SpacedChainRightNested(line, 0, ds, ops, pos, end);
    SpaceEndOfRun(line, end, end);
    ChainLine(ds, ops);
  }

  /**
    A level whose first operand is absent or failed answers exactly that,
    cursor included; with no operator after a tree, the tree is the answer
    and the cursor stops after the blanks.
  */
  lemma FirstOperandOnly(line: string, i: nat)
    requires i <= |line|
    ensures var b := ParseBaseFrom(line, i);
            && (!b.result.Present? ==> ParseMulFrom(line, i) == b)
            && (b.result.Present? && MulOpOf(Lookahead(line, SpaceEnd(line, b.pos))).None? ==>
                  ParseMulFrom(line, i) == Step(b.result, SpaceEnd(line, b.pos)))
    ensures var m := ParseMulFrom(line, i);
            && (!m.result.Present? ==> ParseAddFrom(line, i) == m)
            && (m.result.Present? && AddOpOf(Lookahead(line, SpaceEnd(line, m.pos))).None? ==>
                  ParseAddFrom(line, i) == Step(m.result, SpaceEnd(line, m.pos)))
  {
  }

  /**
    When an operator follows the first operand, the node joins that operand
    on the left and the same level parsed after the operator on the right; a
    right side that is absent or failed is the answer.
  */
  lemma OperatorJoins(line: string, i: nat)
    requires i <= |line|
    ensures var b := ParseBaseFrom(line, i);
            var s := SpaceEnd(line, b.pos);
            b.result.Present? && MulOpOf(Lookahead(line, s)).Some? ==>
              var rhs := ParseMulFrom(line, s + 1);
              ParseMulFrom(line, i) ==
                if rhs.result.Present?
                then Step(Present(MulNode(MulOpOf(Lookahead(line, s)).value, b.result.tree, rhs.result.tree)), rhs.pos)
                else rhs
    ensures var m := ParseMulFrom(line, i);
            var s := SpaceEnd(line, m.pos);
            m.result.Present? && AddOpOf(Lookahead(line, s)).Some? ==>
              var rhs := ParseAddFrom(line, s + 1);
              ParseAddFrom(line, i) ==
                if rhs.result.Present?
                then Step(Present(AddNode(AddOpOf(Lookahead(line, s)).value, m.result.tree, rhs.result.tree)), rhs.pos)
                else rhs
  {
  }

  /**
    Brackets and bars: after the opener, a sum that is absent or failed is
    the answer; otherwise the closer must follow after blanks, or the answer
    is an error at the index where it was expected. A closed bracket gives the
    inner tree unchanged, closed bars its absolute value.
  */
  lemma Brackets(line: string, i: nat)
    requires i <= |line|
    ensures var s := SpaceEnd(line, i);
            var c := Lookahead(line, s);
            (c == Some('(') || c == Some('|')) ==>
              var inner := ParseAddFrom(line, s + 1);
              var k := SpaceEnd(line, inner.pos);
              && (!inner.result.Present? ==> ParseBaseFrom(line, i) == inner)
              && (inner.result.Present? && c == Some('(') && Lookahead(line, k) != Some(')') ==>
                    ParseBaseFrom(line, i) == Step(Error("Expected ')'", k), k))
              && (inner.result.Present? && c == Some('(') && Lookahead(line, k) == Some(')') ==>
                    ParseBaseFrom(line, i) == Step(inner.result, k + 1))
              && (inner.result.Present? && c == Some('|') && Lookahead(line, k) != Some('|') ==>
                    ParseBaseFrom(line, i) == Step(Error("Expected '|'", k), k))
              && (inner.result.Present? && c == Some('|') && Lookahead(line, k) == Some('|') ==>
                    ParseBaseFrom(line, i) == Step(Present(E.Abs(inner.result.tree)), k + 1))
  {
  }

  /**
    Products bind tighter than sums: a tree parsed at the product level has
    a sum or a difference at its root only when the product starts with a
    bracket.
  */
  lemma ProductsHoldSumsOnlyInBrackets(line: string, i: nat)
    requires i <= |line|
    requires ParseMulFrom(line, i).result.Present?
    requires ParseMulFrom(line, i).result.tree.Add? || ParseMulFrom(line, i).result.tree.Sub?
    ensures Lookahead(line, SpaceEnd(line, i)) == Some('(')
  {
    var b := ParseBaseFrom(line, i);
    assert b.result.Present? && ParseMulFrom(line, i).result == b.result;
  }
}
