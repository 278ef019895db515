/**
  The three-way outcome of every parsing step: a tree, nothing to parse, or a
  syntax error carrying its message and the character index where it was found.
*/
module ParseResults {
  import opened Options
  import opened Expression

  datatype ParseResult = Present(tree: Expr) | Absent | Error(message: string, index: nat)
  {
    /**
      Continues a successful step with `f`; an absent or failed step is passed
      on unchanged. (The source also hands `f` a piece of user data; here `f`
      captures what it needs.)
    */
    function Monad(f: Expr -> ParseResult): (r: ParseResult)
      ensures !Present? ==> r == this
      ensures Present? ==> r == f(tree)
    {
      match this
      case Present(x) => f(x)
      case _ => this
    }

    /** Transforms the tree of a successful step; an absent or failed step is passed on unchanged. */
    function Map(f: Expr -> Expr): (r: ParseResult)
      ensures r.Present? <==> Present?
      ensures !Present? ==> r == this
      ensures Present? ==> r.tree == f(tree)
    {
      match this
      case Present(x) => Present(f(x))
      case _ => this
    }

    /** A successful step: exactly a result that has a tree. */
    predicate IsPresent(): (b: bool)
      ensures b <==> PresentTree().Some?
    {
      Present?
    }

    /** Nothing to parse: exactly a result that is neither successful nor failed. */
    predicate IsAbsent(): (b: bool)
      ensures b <==> !IsPresent() && !IsError()
    {
      Absent?
    }

    /** A failed step: exactly a result that has a message and an index. */
    predicate IsError(): (b: bool)
      ensures b <==> ErrorMessage().Some? && ErrorIndex().Some?
    {
      Error?
    }

    /** The tree of a successful step, if any. */
    function PresentTree(): (o: Option<Expr>)
      ensures o.Some? <==> Present?
      ensures o.Some? ==> this == Present(o.value)
    {
      match this
      case Present(x) => Some(x)
      case _ => None
    }

    /** The message of a failed step, if any. */
    function ErrorMessage(): (o: Option<string>)
      ensures o.Some? <==> Error?
      ensures o.Some? ==> this.message == o.value
    {
      match this
      case Error(m, _) => Some(m)
      case _ => None
    }

    /** The character index of a failed step, if any. */
    function ErrorIndex(): (o: Option<nat>)
      ensures o.Some? <==> Error?
      ensures o.Some? ==> this.index == o.value
    {
      match this
      case Error(_, i) => Some(i)
      case _ => None
    }
  }

  /** Exactly one of the three outcomes holds, and a failed step is rebuilt from its two accessors. */
  lemma ExactlyOneOutcome(r: ParseResult)
    ensures r.IsPresent() || r.IsAbsent() || r.IsError()
    ensures !(r.IsPresent() && r.IsAbsent()) && !(r.IsPresent() && r.IsError()) && !(r.IsAbsent() && r.IsError())
    ensures r.IsError() ==> r == Error(r.ErrorMessage().value, r.ErrorIndex().value)
  {
  }

  /** `Map` is `Monad` with a continuation that always succeeds. */
  lemma MapIsMonad(r: ParseResult, f: Expr -> Expr)
    ensures r.Map(f) == r.Monad(x => Present(f(x)))
  {
  }

  /** `Map` respects identity and composition. */
  lemma MapFunctor(r: ParseResult, f: Expr -> Expr, g: Expr -> Expr)
    ensures r.Map(x => x) == r
    ensures r.Map(f).Map(g) == r.Map(x => g(f(x)))
  {
  }

  /** `Monad` with `Present` as unit obeys the two identity laws and associativity. */
  lemma MonadLaws(r: ParseResult, t: Expr, f: Expr -> ParseResult, g: Expr -> ParseResult)
    ensures Present(t).Monad(f) == f(t)
    ensures r.Monad(x => Present(x)) == r
    ensures r.Monad(f).Monad(g) == r.Monad(x => f(x).Monad(g))
  {
  }
}
