/**
  The recursive-descent parser as the source runs it: a cursor object whose
  index and lookahead advance in place while the parsing methods call each
  other. Every method is proved to do what the matching function of module
  Grammar describes.
*/
module Parsing {
  import opened Options
  import opened ParseResults
  import opened Lexical
  import opened Grammar
  import E = Expression

  /**
    The cursor over one line. The source keeps a character iterator beside
    the index; here the iterator is the part of `line` after `idx`, and `cur`
    is the character it last produced (nothing once the line is used up).
  */
  class Parser {
    const line: string
    var idx: nat
    var cur: Option<char>

    ghost predicate Valid()
      reads this
    {
      idx <= |line| && cur == CharAt(line, idx)
    }

    /** A cursor at index 0 whose lookahead is primed with the first character. */
    constructor (s: string)
      ensures Valid() && line == s && idx == 0
    {
      line := s;
      idx := 0;
      cur := CharAt(s, 0);
    }

    /** The lookahead: the current character, or nothing at the end of the line or at a line terminator. */
    function Peek(): (c: Option<char>)
      reads this
      requires Valid()
      ensures c == Lookahead(line, idx)
      ensures c.None? <==> idx == |line| || line[idx] == '\n' || line[idx] == '\r'
    {
      match cur
      case None => None
      case Some(ch) => if ch == '\n' || ch == '\r' then None else Some(ch)
    }

    /** Moves to the next character: the index grows by exactly one and the lookahead follows it. */
    method Skip()
      requires Valid() && cur != None
      modifies this
      ensures Valid() && idx == old(idx) + 1
    {
      cur := CharAt(line, idx + 1);
      idx := idx + 1;
    }

    /** Skips blanks and returns the lookahead after them. */
    method Symbol() returns (c: Option<char>)
      requires Valid()
      modifies this
      ensures Valid() && idx == SpaceEnd(line, old(idx))
      ensures c == Lookahead(line, idx) && !IsSpace(c)
    {
      SkipSpace();
      c := Peek();
    }

    /** Consumes spaces and tabs, and nothing else, until the lookahead is neither. */
    method SkipSpace()
      requires Valid()
      modifies this
      ensures Valid() && idx == SpaceEnd(line, old(idx))
      ensures forall k | old(idx) <= k < idx :: line[k] == ' ' || line[k] == '\t'
      ensures !IsSpace(Peek())
    {
      while IsSpace(Peek())
        invariant Valid() && old(idx) <= idx
        invariant SpaceEnd(line, idx) == SpaceEnd(line, old(idx))
        invariant forall k | old(idx) <= k < idx :: line[k] == ' ' || line[k] == '\t'
        decreases |line| - idx
      {
        Skip();
      }
    }

    /** number: see Grammar.ParseNumberFrom. */
    method ParseNumber() returns (r: ParseResult)
      requires Valid()
      modifies this
      ensures Valid() && ParseNumberFrom(line, old(idx)) == Step(r, idx)
    {
      SkipSpace();
      var c := Peek();
      var s := idx;
      if !IsNumberChar(c) {
        return Absent;
      }
      var st := "";
      c := Peek();
      while IsNumberChar(c)
        invariant Valid() && s <= idx
        invariant NumberEnd(line, idx) == NumberEnd(line, s)
        invariant st == line[s..idx]
        invariant c == Peek()
        decreases |line| - idx
      {
        assert line[s..idx + 1] == line[s..idx] + [c.value];
        st := st + [c.value];
        Skip();
        c := Peek();
      }
      match ParseFloat(st)
      case Some(v) => r := Present(E.Const(v));
      case None => r := Error("Incorrect number", s);
    }

    /** base: see Grammar.ParseBaseFrom. */
    method ParseBase() returns (r: ParseResult)
      requires Valid()
      modifies this
      ensures Valid() && ParseBaseFrom(line, old(idx)) == Step(r, idx)
      decreases |line| - idx, 1
    {
      ghost var start := idx;
      var c := Symbol();
      if c == Some('-') || c == Some('+') {
        Skip();
        var inner := ParseBase();
        r := inner.Map(x => E.Neg(x));
      } else if c == Some('(') || c == Some('|') {
        r := ParseGroup(start, c == Some('|'));
      } else {
        r := ParseNumber();
      }
    }

    /**
      The bracket and bar alternatives of base, from the opener on: the sum
      inside, then the closer after blanks. A closed bracket gives the inner
      tree and closed bars its absolute value.
    */
    method ParseGroup(ghost start: nat, bars: bool) returns (r: ParseResult)
      requires Valid() && start <= idx < |line| && idx == SpaceEnd(line, start)
      requires line[idx] == if bars then '|' else '('
      modifies this
      ensures Valid() && ParseBaseFrom(line, start) == Step(r, idx)
      decreases |line| - idx, 0
    {
      Skip();
      r := ParseAdd();
      if r.Present? {
        SkipSpace();
        if bars && Peek() != Some('|') {
          r := Error("Expected '|'", idx);
        } else if !bars && Peek() != Some(')') {
          r := Error("Expected ')'", idx);
        } else {
          Skip();
          if bars {
            r := Present(E.Abs(r.tree));
          }
        }
      }
    }

    /** mul: see Grammar.ParseMulFrom. */
    method ParseMul() returns (r: ParseResult)
      requires Valid()
      modifies this
      ensures Valid() && ParseMulFrom(line, old(idx)) == Step(r, idx)
      decreases |line| - idx, 2
    {
      ghost var start := idx;
      var lhs := ParseBase();
      if !lhs.Present? {
        return lhs;
      }
      var c := Symbol();
      var op: MulOp;
      if c == Some('*') {
        op := Mul;
      } else if c == Some('/') {
        op := Div;
      } else if c == Some('%') {
        op := Rem;
      } else {
        return lhs;
      }
      assert MulOpOf(c) == Some(op);
      Skip();
      var right := ParseMul();
      r := right.Map(rhs => MulNode(op, lhs.tree, rhs));
    }

    /** add: see Grammar.ParseAddFrom. */
    method ParseAdd() returns (r: ParseResult)
      requires Valid()
      modifies this
      ensures Valid() && ParseAddFrom(line, old(idx)) == Step(r, idx)
      decreases |line| - idx, 3
    {
      ghost var start := idx;
      var lhs := ParseMul();
      assert ParseAddFrom(line, start) == AddRest(line, start, Step(lhs, idx));
      if !lhs.Present? {
        return lhs;
      }
      var c := Symbol();
      var op: AddOp;
      if c == Some('+') {
        op := Add;
      } else if c == Some('-') {
        op := Sub;
      } else {
        return lhs;
      }
      assert AddOpOf(c) == Some(op);
      Skip();
      var right := ParseAdd();
      r := right.Map(rhs => AddNode(op, lhs.tree, rhs));
    }
  }

  /** Parses one line with a fresh cursor; the answer is the one Grammar.ParseLine describes. */
  method Parse(s: string) returns (r: ParseResult)
    ensures r == ParseLine(s)
  {
    var parser := new Parser(s);
    r := parser.ParseAdd();
    if r.Error? {
      return r;
    }
    parser.SkipSpace();
    if parser.Peek() == None {
      return r;
    }
    return Error("Extra input", parser.idx);
  }
}
