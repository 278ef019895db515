/**
  Whole lines and what they parse to, with the values their trees evaluate
  to. Values use the exact decimal value of each literal. Each proof walks
  the line level by level, innermost first.

  Each example takes its line as a parameter pinned by `requires line == ...`
  rather than writing the literal into its conclusion: that way the parsing
  functions are unfolded only at the indices the proof names, one step at a
  time, instead of all at once on a literal.
*/
module Examples {
  import opened Options
  import opened ParseResults
  import opened Lexical
  import opened Grammar
  import opened GrammarProperties
  import E = Expression

  /** The constant leaf with value `v`. */
  function C(v: real): (e: E.Expr)
    ensures e.Const? && e.value == v
  {
    E.Const(v)
  }

  /** `8-3-2` is `8-(3-2)`. */
  lemma SubtractionLeansRight(line: string)
    requires line == "8-3-2"
    ensures ParseLine(line) == Present(E.Sub(C(8.0), E.Sub(C(3.0), C(2.0))))
  {
    var ds, ops := ['8', '3', '2'], ['-', '-'];
    assert Chain(ds, ops) == line;
    ChainLine(ds, ops);
  }

  /** ... so it evaluates to 7, not to 3. */
  lemma SubtractionValue(line: string, ar: E.Arith)
    requires line == "8-3-2"
    ensures ParseLine(line).Present? && E.Eval(ParseLine(line).tree, ar) == 7.0
  {
    SubtractionLeansRight(line);
    assert E.Eval(E.Sub(C(3.0), C(2.0)), ar) == 1.0;
  }

  /** Blanks around an operator change nothing: `1 + 2` parses like `1+2`. */
  lemma BlanksAroundOperator(line: string)
    requires line == "1 + 2"
    ensures ParseLine(line) == Present(E.Add(C(1.0), C(2.0)))
    ensures ParseLine(line) == ParseLine("1+2")
  {
    var ds, ops, pos := ['1', '2'], ['+'], [0, 2, 4];
    assert BlanksElsewhere(line, 0, 5, pos) by {
      forall j | 0 <= j < 5 && j !in pos
        ensures line[j] == ' ' || line[j] == '\t'
      {
        assert j == 1 || j == 3;
      }
    }
    assert SpacedChainAt(line, 0, ds, ops, pos, 5);
    SpacedChainLine(line, ds, ops, pos, 5);
    assert Chain(ds, ops) == "1+2";
  }

  /** A bracket left open is reported at the end of the line, index 4. */
  lemma UnclosedBracket(line: string)
    requires line == "(1+2"
    ensures ParseLine(line) == Error("Expected ')'", 4)
  {
    var ds, ops := ['1', '2'], ['+'];
    assert line[1..4] == Chain(ds, ops);
    PlainChainIsSpaced(line, 1, ds, ops);
    SpacedChainRightNested(line, 1, ds, ops, Consecutive(1, 3), 4);
    SpaceEndOfRun(line, 0, 0);
    SpaceEndOfRun(line, 4, 4);
    Brackets(line, 0);
    assert ParseBaseFrom(line, 0) == Step(Error("Expected ')'", 4), 4);
    FirstOperandOnly(line, 0);
    WholeLine(line);
  }

  /** Input after a complete expression is an error at its first character, index 2. */
  lemma TrailingInput(line: string)
    requires line == "1 2"
    ensures ParseLine(line) == Error("Extra input", 2)
  {
    DigitBase(line, 0);
    SpaceEndOfRun(line, 1, 2);
    FirstOperandOnly(line, 0);
    assert ParseAddFrom(line, 0) == Step(Present(C(1.0)), 2);
  }

  /** One more blank moves the error with the input: `1  2` is extra input at index 3. */
  lemma TrailingInputAfterTwoBlanks(line: string)
    requires line == "1  2"
    ensures ParseLine(line) == Error("Extra input", 3)
  {
    DigitBase(line, 0);
    SpaceEndOfRun(line, 1, 3);
    FirstOperandOnly(line, 0);
    assert ParseAddFrom(line, 0) == Step(Present(C(1.0)), 3);
  }

  /** A closer with nothing before it is not an error of the sum, which is absent, but extra input at index 0. */
  lemma StrayCloser(line: string)
    requires line == ")"
    ensures ParseLine(line) == Error("Extra input", 0)
  {
    SpaceEndOfRun(line, 0, 0);
    assert ParseNumberFrom(line, 0) == Step(Absent, 0);
    assert ParseBaseFrom(line, 0) == Step(Absent, 0);
    FirstOperandOnly(line, 0);
    assert ParseAddFrom(line, 0) == Step(Absent, 0);
  }

  /** A run with two periods is refused at the index where the run starts. */
  lemma TwoPeriods(line: string)
    requires line == "1.2.3"
    ensures ParseLine(line) == Error("Incorrect number", 0)
  {
    NumberRunBase(line, 0, 5);
    assert line[0..5] == line[..5] == line;
    assert line[..1][..0] == [];
    assert DotCount(line[..1]) == 0;
    assert line[..2][..1] == line[..1];
    assert DotCount(line[..2]) == 1;
    assert line[..3][..2] == line[..2];
    assert DotCount(line[..3]) == 1;
    assert line[..4][..3] == line[..3];
    assert DotCount(line[..4]) == 2;
    assert line[..5][..4] == line[..4];
    assert DotCount(line) == 2;
    RejectedLiterals(line);
    FirstOperandOnly(line, 0);
    assert ParseAddFrom(line, 0) == Step(Error("Incorrect number", 0), 5);
    WholeLine(line);
  }

  /** A numeral outside ASCII is consumed as part of the number and then refused by the float parser. */
  lemma ArabicIndicDigit(line: string)
    requires line == "\U{0663}"
    ensures ParseLine(line) == Error("Incorrect number", 0)
  {
    NumberRunBase(line, 0, 1);
    assert line[0..1] == line;
    assert !IsDecimalChar(line[0]);
    RejectedLiterals(line);
    FirstOperandOnly(line, 0);
    assert ParseAddFrom(line, 0) == Step(Error("Incorrect number", 0), 1);
    WholeLine(line);
  }

  /** The two operands of the product in `-3*2`: the negated 3 from index 0, and 2 from index 3. */
  lemma NegationOperands(line: string)
    requires line == "-3*2"
    ensures ParseBaseFrom(line, 0) == Step(Present(E.Neg(C(3.0))), 2)
    ensures ParseMulFrom(line, 3) == Step(Present(C(2.0)), 4)
  {
    assert ParseMulFrom(line, 3) == Step(Present(C(2.0)), 4) by {
      DigitBase(line, 3);
      SpaceEndOfRun(line, 4, 4);
      FirstOperandOnly(line, 3);
    }
    DigitBase(line, 1);
    SignBase(line, 0);
  }

  /** A sign binds to the number after it, not to the product: `-3*2` is `(-3)*2`. */
  lemma NegationBindsTightly(line: string)
    requires line == "-3*2"
    ensures ParseLine(line) == Present(E.Mul(E.Neg(C(3.0)), C(2.0)))
  {
    NegationOperands(line);
    assert ParseMulFrom(line, 0) == Step(Present(E.Mul(E.Neg(C(3.0)), C(2.0))), 4) by {
      SpaceEndOfRun(line, 2, 2);
      OperatorJoins(line, 0);
    }
    assert ParseAddFrom(line, 0) == Step(Present(E.Mul(E.Neg(C(3.0)), C(2.0))), 4) by {
      SpaceEndOfRun(line, 4, 4);
      FirstOperandOnly(line, 0);
    }
    WholeLine(line);
  }

  /** ... so it evaluates to -6. */
  lemma NegationValue(line: string, ar: E.Arith)
    requires line == "-3*2"
    ensures ParseLine(line).Present? && E.Eval(ParseLine(line).tree, ar) == -6.0
  {
    NegationBindsTightly(line);
    assert E.Eval(E.Neg(C(3.0)), ar) == -3.0;
  }

  /** Unary plus negates too: `+3` is -3. */
  lemma UnaryPlusNegates(line: string, ar: E.Arith)
    requires line == "+3"
    ensures ParseLine(line) == Present(E.Neg(C(3.0)))
    ensures E.Eval(ParseLine(line).tree, ar) == -3.0
  {
    DigitBase(line, 1);
    SignBase(line, 0);
    assert ParseBaseFrom(line, 0) == Step(Present(E.Neg(C(3.0))), 2);
    SpaceEndOfRun(line, 2, 2);
    FirstOperandOnly(line, 0);
    assert ParseAddFrom(line, 0) == Step(Present(E.Neg(C(3.0))), 2);
    WholeLine(line);
  }

  /** The right-hand operand of the sum in `1+2*3`: the product from index 2 to the end. */
  lemma ProductAfterPlus(line: string)
    requires line == "1+2*3"
    ensures ParseAddFrom(line, 2) == Step(Present(E.Mul(C(2.0), C(3.0))), 5)
  {
    assert ParseMulFrom(line, 4) == Step(Present(C(3.0)), 5) by {
      DigitBase(line, 4);
      SpaceEndOfRun(line, 5, 5);
      FirstOperandOnly(line, 4);
    }
    assert ParseMulFrom(line, 2) == Step(Present(E.Mul(C(2.0), C(3.0))), 5) by {
      DigitBase(line, 2);
      SpaceEndOfRun(line, 3, 3);
      assert MulOpOf(Lookahead(line, 3)) == Some(Mul);
      assert ParseMulFrom(line, 2) == MulRest(line, 2, Step(Present(C(2.0)), 3));
    }
    SpaceEndOfRun(line, 5, 5);
    FirstOperandOnly(line, 2);
  }

  /** A product on the right of a sum is grouped first: `1+2*3` is `1+(2*3)`. */
  lemma ProductRightOfSum(line: string)
    requires line == "1+2*3"
    ensures ParseLine(line) == Present(E.Add(C(1.0), E.Mul(C(2.0), C(3.0))))
  {
    ProductAfterPlus(line);
    assert ParseMulFrom(line, 0) == Step(Present(C(1.0)), 1) by {
      DigitBase(line, 0);
      SpaceEndOfRun(line, 1, 1);
      FirstOperandOnly(line, 0);
    }
    assert ParseAddFrom(line, 0) == Step(Present(E.Add(C(1.0), E.Mul(C(2.0), C(3.0)))), 5) by {
      SpaceEndOfRun(line, 1, 1);
      assert AddOpOf(Lookahead(line, 1)) == Some(Add);
      assert ParseAddFrom(line, 0) == AddRest(line, 0, Step(Present(C(1.0)), 1));
    }
    WholeLine(line);
  }

  /** The product that opens `2*3+1`, given its right-hand operand. */
  lemma ProductBeforePlus(line: string)
    requires line == "2*3+1"
    requires ParseMulFrom(line, 2) == Step(Present(C(3.0)), 3)
    ensures ParseMulFrom(line, 0) == Step(Present(E.Mul(C(2.0), C(3.0))), 3)
  {
    DigitBase(line, 0);
    SpaceEndOfRun(line, 1, 1);
    assert MulOpOf(Lookahead(line, 1)) == Some(Mul);
    assert ParseMulFrom(line, 0) == MulRest(line, 0, Step(Present(C(2.0)), 1));
  }

  /** The two joins of `2*3+1`, given its right-hand operands. */
  lemma ProductThenSum(line: string)
    requires line == "2*3+1"
    requires ParseMulFrom(line, 2) == Step(Present(C(3.0)), 3)
    requires ParseAddFrom(line, 4) == Step(Present(C(1.0)), 5)
    ensures ParseAddFrom(line, 0) == Step(Present(E.Add(E.Mul(C(2.0), C(3.0)), C(1.0))), 5)
  {
    ProductBeforePlus(line);
    SpaceEndOfRun(line, 3, 3);
    assert AddOpOf(Lookahead(line, 3)) == Some(Add);
    assert ParseAddFrom(line, 0) == AddRest(line, 0, Step(Present(E.Mul(C(2.0), C(3.0))), 3));
  }

  /** A product on the left of a sum is grouped first: `2*3+1` is `(2*3)+1`. */
  lemma ProductLeftOfSum(line: string)
    requires line == "2*3+1"
    ensures ParseLine(line) == Present(E.Add(E.Mul(C(2.0), C(3.0)), C(1.0)))
  {
    assert ParseAddFrom(line, 4) == Step(Present(C(1.0)), 5) by {
      DigitBase(line, 4);
      SpaceEndOfRun(line, 5, 5);
      FirstOperandOnly(line, 4);
    }
    assert ParseMulFrom(line, 2) == Step(Present(C(3.0)), 3) by {
      DigitBase(line, 2);
      SpaceEndOfRun(line, 3, 3);
      assert MulOpOf(Lookahead(line, 3)).None?;
      FirstOperandOnly(line, 2);
    }
    ProductThenSum(line);
    WholeLine(line);
  }

  /** Bars around a negation: `|-5|`, which is 5. */
  lemma BarsAroundNegation(line: string, ar: E.Arith)
    requires line == "|-5|"
    ensures ParseLine(line) == Present(E.Abs(E.Neg(C(5.0))))
    ensures E.Eval(ParseLine(line).tree, ar) == 5.0
  {
    assert ParseAddFrom(line, 1) == Step(Present(E.Neg(C(5.0))), 3) by {
      DigitBase(line, 2);
      SignBase(line, 1);
      assert ParseBaseFrom(line, 1) == Step(Present(E.Neg(C(5.0))), 3);
      SpaceEndOfRun(line, 3, 3);
      FirstOperandOnly(line, 1);
    }
    assert ParseBaseFrom(line, 0) == Step(Present(E.Abs(E.Neg(C(5.0)))), 4) by {
      SpaceEndOfRun(line, 0, 0);
      SpaceEndOfRun(line, 3, 3);
      Brackets(line, 0);
    }
    assert ParseAddFrom(line, 0) == Step(Present(E.Abs(E.Neg(C(5.0)))), 4) by {
      SpaceEndOfRun(line, 4, 4);
      FirstOperandOnly(line, 0);
    }
    WholeLine(line);
    assert E.Eval(E.Neg(C(5.0)), ar) == -5.0;
  }

  /** Bars around a difference: `|2-9|`, which is 7. */
  lemma BarsAroundDifference(line: string, ar: E.Arith)
    requires line == "|2-9|"
    ensures ParseLine(line) == Present(E.Abs(E.Sub(C(2.0), C(9.0))))
    ensures E.Eval(ParseLine(line).tree, ar) == 7.0
  {
    assert ParseAddFrom(line, 1) == Step(Present(E.Sub(C(2.0), C(9.0))), 4) by {
      var ds, ops := ['2', '9'], ['-'];
      assert line[1..4] == Chain(ds, ops);
      PlainChainIsSpaced(line, 1, ds, ops);
      SpacedChainRightNested(line, 1, ds, ops, Consecutive(1, 3), 4);
    }
    assert ParseBaseFrom(line, 0) == Step(Present(E.Abs(E.Sub(C(2.0), C(9.0)))), 5) by {
      SpaceEndOfRun(line, 0, 0);
      SpaceEndOfRun(line, 4, 4);
      Brackets(line, 0);
    }
    assert ParseAddFrom(line, 0) == Step(Present(E.Abs(E.Sub(C(2.0), C(9.0)))), 5) by {
      SpaceEndOfRun(line, 5, 5);
      FirstOperandOnly(line, 0);
    }
    WholeLine(line);
    assert E.Eval(E.Sub(C(2.0), C(9.0)), ar) == -7.0;
  }

  /**
    A line that stops right after a sign has nothing to parse rather than an
    error: the absent operand passes through every level to the top.
  */
  lemma LoneSignIsAbsent(line: string)
    requires line == "-"
    ensures ParseLine(line) == Absent
  {
    SpaceEndOfRun(line, 1, 1);
    NothingLeft(line, 1);
    SignBase(line, 0);
    assert ParseBaseFrom(line, 0) == Step(Absent, 1);
    FirstOperandOnly(line, 0);
    WholeLine(line);
  }

  /** The same for a line that stops right after an opening bracket or an opening bar. */
  lemma LoneOpenerIsAbsent(line: string)
    requires line == "(" || line == "|"
    ensures ParseLine(line) == Absent
  {
    SpaceEndOfRun(line, 1, 1);
    NothingLeft(line, 1);
    SpaceEndOfRun(line, 0, 0);
    Brackets(line, 0);
    assert ParseBaseFrom(line, 0) == Step(Absent, 1);
    FirstOperandOnly(line, 0);
    WholeLine(line);
  }

  /** The same for a line that stops right after a binary operator. */
  lemma DanglingOperatorIsAbsent(line: string)
    requires line == "1+"
    ensures ParseLine(line) == Absent
  {
    SpaceEndOfRun(line, 2, 2);
    NothingLeft(line, 2);
    DigitBase(line, 0);
    SpaceEndOfRun(line, 1, 1);
    FirstOperandOnly(line, 0);
    assert ParseMulFrom(line, 0) == Step(Present(C(1.0)), 1);
    OperatorJoins(line, 0);
    assert ParseAddFrom(line, 0) == Step(Absent, 2);
    WholeLine(line);
  }

  /** Blank lines, with or without a line terminator, have nothing to parse. */
  lemma BlankLines()
    ensures ParseLine("") == Absent
    ensures ParseLine(" \t ") == Absent
    ensures ParseLine("  \r\n") == Absent
  {
    BlankLineIsAbsent("", 0);
    BlankLineIsAbsent(" \t ", 3);
    BlankLineIsAbsent("  \r\n", 2);
  }
}
