/**
 * The abstract syntax of the functional pseudo-language drawn by the algorithm
 * visualizer: patterns on the left of `=`, terms on the right, one clause per line.
 */
module PseudoAst {

  /** A pattern: a constructor with sub-patterns (possibly none) or a bare variable. */
  datatype Pattern = PCon(name: string, args: seq<Pattern>) | PVar(name: string)

  /**
   * A term. `Lit` keeps the text of a numeric token; an `App` built by the
   * parser always has at least one argument (see `WellFormedTerm`).
   */
  datatype Term = Var(name: string) | Lit(value: string) | App(fn: Term, args: seq<Term>)

  /** One clause `name patterns* = body`. */
  datatype FunctionDefinition = FunctionDefinition(name: string, patterns: seq<Pattern>, body: Term)

  /** No application with an empty argument list anywhere in the term. */
  predicate WellFormedTerm(t: Term)
  {
    match t
    case Var(_) => true
    case Lit(_) => true
    case App(f, args) =>
      |args| > 0 && WellFormedTerm(f) && forall i :: 0 <= i < |args| ==> WellFormedTerm(args[i])
  }

  /** The number of nodes of a term, not counting the head of an application. */
  function Size(t: Term): (n: nat)
    ensures n >= 1
  {
    match t
    case Var(_) => 1
    case Lit(_) => 1
    case App(_, args) => 1 + SizeOfArgs(t, |args|)
  }

  /** The total size of the first `k` arguments of application `t`. */
  function SizeOfArgs(t: Term, k: nat): nat
    requires t.App? && k <= |t.args|
    decreases t, k
  {
    if k == 0 then 0 else SizeOfArgs(t, k - 1) + Size(t.args[k - 1])
  }
}
