/**
  The grammar the parser recognises, written as functions of the line and a
  start index. Each returns the outcome of the step and the index where the
  cursor stops, exactly as the cursor-based parser does:

    add    := mul (('+' | '-') add)?
    mul    := base (('*' | '/' | '%') mul)?
    base   := '-' base | '+' base | '(' add ')' | '|' add '|' | number
    number := a maximal run of numeric characters and periods

  Blanks (spaces and tabs) are skipped before every token; a line terminator
  ends the input.
*/
module Grammar {
  import opened Options
  import opened ParseResults
  import opened Lexical
  import E = Expression

  /** The outcome of one step and the index where the cursor stands afterwards. */
  datatype Step = Step(result: ParseResult, pos: nat)

  datatype MulOp = Mul | Div | Rem

  datatype AddOp = Add | Sub

  /** The node a multiplicative operator builds: the left operand first, the right operand second. */
  function MulNode(op: MulOp, l: E.Expr, r: E.Expr): (n: E.Expr)
    ensures n.Mul? <==> op == Mul
    ensures n.Div? <==> op == Div
    ensures n.Rem? <==> op == Rem
    ensures (n.Mul? || n.Div? || n.Rem?) && n.left == l && n.right == r
  {
    match op
    case Mul => E.Mul(l, r)
    case Div => E.Div(l, r)
    case Rem => E.Rem(l, r)
  }

  /** The node an additive operator builds: the left operand first, the right operand second. */
  function AddNode(op: AddOp, l: E.Expr, r: E.Expr): (n: E.Expr)
    ensures n.Add? <==> op == Add
    ensures n.Sub? <==> op == Sub
    ensures (n.Add? || n.Sub?) && n.left == l && n.right == r
  {
    match op
    case Add => E.Add(l, r)
    case Sub => E.Sub(l, r)
  }

  /** The messages of the three kinds of syntax error a parsing step can report. */
  const StepMessages: set<string> := {"Incorrect number", "Expected ')'", "Expected '|'"}

  /**
    Every error a step reports carries one of the step messages and lies
    between the step's start index and the index where it stops.
  */
  predicate ErrorWithin(st: Step, i: nat)
  {
    st.result.Error? ==> st.result.message in StepMessages && i <= st.result.index <= st.pos
  }

  /**
    number: skip blanks; with no number character ahead there is nothing to
    parse; otherwise consume the maximal run and convert it, reporting a run
    the float parser refuses at the index where the run starts.
  */
  function ParseNumberFrom(line: string, i: nat): (st: Step)
    requires i <= |line|
    ensures i <= st.pos <= |line| && ErrorWithin(st, i)
  {
    var s := SpaceEnd(line, i);
    if !IsNumberChar(Lookahead(line, s)) then Step(Absent, s)
    else
      var e := NumberEnd(line, s);
      match ParseFloat(line[s..e])
      case Some(v) => Step(Present(E.Const(v)), e)
      case None => Step(Error("Incorrect number", s), e)
  }

  /**
    The three outcomes of number: absent exactly when no number character
    follows the blanks, and then nothing beyond the blanks is consumed;
    otherwise the maximal run is consumed, and the outcome is an error at the
    start of the run exactly when the float parser refuses the run, and
    otherwise the constant it reads.
  */
  lemma NumberOutcome(line: string, i: nat)
    requires i <= |line|
    ensures var st := ParseNumberFrom(line, i);
            var s := SpaceEnd(line, i);
            && (st.result.Absent? <==> !IsNumberChar(Lookahead(line, s)))
            && (st.result.Absent? ==> st.pos == s)
            && (!st.result.Absent? ==> s < st.pos == NumberEnd(line, s))
            && (st.result.Error? <==> !st.result.Absent? && ParseFloat(line[s..st.pos]).None?)
            && (st.result.Error? ==> st.result == Error("Incorrect number", s))
            && (st.result.Present? ==>
                  st.result.tree.Const? && ParseFloat(line[s..st.pos]) == Some(st.result.tree.value))
  {
  }

  /**
    base: a unary sign wraps the following base in a negation (for `+` as
    well as `-`); brackets return the inner sum unchanged and bars wrap it in
    an absolute value, each demanding its closer after blanks; anything else
    is a number.
  */
  function ParseBaseFrom(line: string, i: nat): (st: Step)
    requires i <= |line|
    ensures i <= st.pos <= |line| && ErrorWithin(st, i)
    decreases |line| - i, 0
  {
    var s := SpaceEnd(line, i);
    var c := Lookahead(line, s);
    if c == Some('-') || c == Some('+') then
      var inner := ParseBaseFrom(line, s + 1);
      if inner.result.Present? then Step(Present(E.Neg(inner.result.tree)), inner.pos) else inner
    else if c == Some('(') then
      var inner := ParseAddFrom(line, s + 1);
      if !inner.result.Present? then inner
      else
        var k := SpaceEnd(line, inner.pos);
        if Lookahead(line, k) != Some(')') then Step(Error("Expected ')'", k), k)
        else Step(inner.result, k + 1)
    else if c == Some('|') then
      var inner := ParseAddFrom(line, s + 1);
      if !inner.result.Present? then inner
      else
        var k := SpaceEnd(line, inner.pos);
        if Lookahead(line, k) != Some('|') then Step(Error("Expected '|'", k), k)
        else Step(Present(E.Abs(inner.result.tree)), k + 1)
    else
      ParseNumberFrom(line, s)
  }

  /** The multiplicative operator a lookahead names, if any. */
  function MulOpOf(c: Option<char>): (op: Option<MulOp>)
    ensures op.Some? <==> c in {Some('*'), Some('/'), Some('%')}
    ensures op == Some(Mul) <==> c == Some('*')
    ensures op == Some(Div) <==> c == Some('/')
    ensures op == Some(Rem) <==> c == Some('%')
  {
    if c == Some('*') then Some(Mul)
    else if c == Some('/') then Some(Div)
    else if c == Some('%') then Some(Rem)
    else None
  }

  /** The additive operator a lookahead names, if any. */
  function AddOpOf(c: Option<char>): (op: Option<AddOp>)
    ensures op.Some? <==> c in {Some('+'), Some('-')}
    ensures op == Some(Add) <==> c == Some('+')
    ensures op == Some(Sub) <==> c == Some('-')
  {
    if c == Some('+') then Some(Add)
    else if c == Some('-') then Some(Sub)
    else None
  }

  /**
    mul: a base, then the rest of the product. (Split in two so that the
    part after the first operand can be reasoned about on its own.)
  */
  function ParseMulFrom(line: string, i: nat): (st: Step)
    requires i <= |line|
    ensures i <= st.pos <= |line| && ErrorWithin(st, i)
    decreases |line| - i, 1
  {
    MulRest(line, i, ParseBaseFrom(line, i))
  }

  /**
    The rest of a product after its first operand `lhs`: an operand that is
    not a tree is the answer; with no multiplicative operator after it (and
    blanks) the operand is the answer; otherwise the operator is consumed and
    another mul on its right becomes the right child (so the tree leans to
    the right).
  */
  function MulRest(line: string, i: nat, lhs: Step): (st: Step)
    requires i <= lhs.pos <= |line| && ErrorWithin(lhs, i)
    ensures lhs.pos <= st.pos <= |line| && ErrorWithin(st, i)
    decreases |line| - lhs.pos, 0
  {
    if !lhs.result.Present? then lhs
    else
      var s := SpaceEnd(line, lhs.pos);
      match MulOpOf(Lookahead(line, s))
      case None => Step(lhs.result, s)
      case Some(op) =>
        var rhs := ParseMulFrom(line, s + 1);
        if rhs.result.Present? then Step(Present(MulNode(op, lhs.result.tree, rhs.result.tree)), rhs.pos)
        else rhs
  }

  /** add: a mul, then the rest of the sum. */
  function ParseAddFrom(line: string, i: nat): (st: Step)
    requires i <= |line|
    ensures i <= st.pos <= |line| && ErrorWithin(st, i)
    decreases |line| - i, 3
  {
    AddRest(line, i, ParseMulFrom(line, i))
  }

  /**
    The rest of a sum after its first operand `lhs`: an operand that is not
    a tree is the answer; with no additive operator after it (and blanks) the
    operand is the answer; otherwise the operator is consumed and another add
    on its right becomes the right child (so the tree leans to the right).
  */
  function AddRest(line: string, i: nat, lhs: Step): (st: Step)
    requires i <= lhs.pos <= |line| && ErrorWithin(lhs, i)
    ensures lhs.pos <= st.pos <= |line| && ErrorWithin(st, i)
    decreases |line| - lhs.pos, 2
  {
    if !lhs.result.Present? then lhs
    else
      var s := SpaceEnd(line, lhs.pos);
      match AddOpOf(Lookahead(line, s))
      case None => Step(lhs.result, s)
      case Some(op) =>
        var rhs := ParseAddFrom(line, s + 1);
        if rhs.result.Present? then Step(Present(AddNode(op, lhs.result.tree, rhs.result.tree)), rhs.pos)
        else rhs
  }

  /**
    A whole line: an error from the sum is the answer; otherwise, after
    blanks, the line must be at its end (or at a terminator), or the
    remaining input is an error at the index where it starts.
  */
  function ParseLine(line: string): (r: ParseResult)
    ensures var st := ParseAddFrom(line, 0);
            && (st.result.Error? ==> r == st.result)
            && (!st.result.Error? ==>
                  (r == st.result <==> Lookahead(line, SpaceEnd(line, st.pos)) == None))
            && (!st.result.Error? && Lookahead(line, SpaceEnd(line, st.pos)) != None ==>
                  r == Error("Extra input", SpaceEnd(line, st.pos)))
    ensures r.Error? ==> r.message in StepMessages + {"Extra input"} && r.index <= |line|
  {
    var st := ParseAddFrom(line, 0);
    if st.result.Error? then st.result
    else
      var s := SpaceEnd(line, st.pos);
      if Lookahead(line, s) == None then st.result else Error("Extra input", s)
  }
}
