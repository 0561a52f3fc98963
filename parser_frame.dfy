/**
 * What the term parser looks at: a bare atom is a literal exactly when it
 * is numeric, and a parse reads no token beyond the point where it stops, so
 * everything after a `)` that closes nothing at the top level of a body is
 * ignored.
 */
module ParserFrame {
  import opened Wrappers
  import opened PseudoAst
  import opened ParserSpec

  /** A bare atom is a literal iff its token is numeric, otherwise a variable; either way it keeps the token's text. */
  lemma BareAtomClassification(toks: seq<string>, pos: nat)
    requires pos < |toks| && toks[pos] != "("
    ensures AtomAt(toks, pos).1 == pos + 1 && AtomAt(toks, pos).0.Some?
    ensures AtomAt(toks, pos).0.value.Lit? <==> IsNumeric(toks[pos])
    ensures AtomAt(toks, pos).0.value.Var? <==> !IsNumeric(toks[pos])
    ensures AtomAt(toks, pos).0.value == Lit(toks[pos]) || AtomAt(toks, pos).0.value == Var(toks[pos])
  {
  }

  /** Two token lists that agree on their first `n` tokens. */
  predicate AgreeUpTo(toks1: seq<string>, toks2: seq<string>, n: nat)
  {
    n <= |toks1| && n <= |toks2| && toks1[..n] == toks2[..n]
  }

  /** An atom that ends before `n` reads only the first `n` tokens. */
  lemma {:induction false} AtomFrame(toks1: seq<string>, toks2: seq<string>, pos: nat, n: nat)
    requires pos <= |toks1| && AgreeUpTo(toks1, toks2, n)
    requires AtomAt(toks1, pos).1 < n
    ensures pos <= |toks2| && AtomAt(toks2, pos) == AtomAt(toks1, pos)
    decreases |toks1| - pos, 0
  {
    assert toks1[pos] == toks1[..n][pos] == toks2[..n][pos] == toks2[pos];
    if toks1[pos] == "(" {
      var (t, q) := ApplicationAt(toks1, pos + 1);
      assert q < |toks1| && toks1[q] == ")";
      ApplicationFrame(toks1, toks2, pos + 1, n);
      assert toks2[q] == toks2[..n][q] == toks1[..n][q] == ")";
    }
  }

  /** An application that stops before `n` reads only the first `n` tokens. */
  lemma {:induction false} ApplicationFrame(toks1: seq<string>, toks2: seq<string>, pos: nat, n: nat)
    requires pos <= |toks1| && AgreeUpTo(toks1, toks2, n)
    requires ApplicationAt(toks1, pos).1 < n
    ensures pos <= |toks2| && ApplicationAt(toks2, pos) == ApplicationAt(toks1, pos)
    decreases |toks1| - pos, 2
  {
    var (left, q) := AtomAt(toks1, pos);
    assert left.Some?;
    AtomFrame(toks1, toks2, pos, n);
    ArgumentsFrame(toks1, toks2, q, n);
  }

  /** The argument loop, stopped at a `)` before `n`, reads only the first `n` tokens. */
  lemma {:induction false} ArgumentsFrame(toks1: seq<string>, toks2: seq<string>, pos: nat, n: nat)
    requires pos <= |toks1| && AgreeUpTo(toks1, toks2, n)
    requires ArgumentsAt(toks1, pos).1 < n
    ensures pos <= |toks2| && ArgumentsAt(toks2, pos) == ArgumentsAt(toks1, pos)
    decreases |toks1| - pos, 1
  {
    assert toks1[pos] == toks1[..n][pos] == toks2[..n][pos] == toks2[pos];
    if toks1[pos] != ")" {
      var (a, q) := AtomAt(toks1, pos);
      assert a.Some?;
      AtomFrame(toks1, toks2, pos, n);
      ArgumentsFrame(toks1, toks2, q, n);
    }
  }

  /** A pattern that ends before `n` reads only the first `n` tokens, its one-token look-ahead included. */
  lemma {:induction false} PatternFrame(toks1: seq<string>, toks2: seq<string>, pos: nat, n: nat)
    requires pos <= |toks1| && AgreeUpTo(toks1, toks2, n)
    requires PatternAt(toks1, pos).1 < n
    ensures pos <= |toks2| && PatternAt(toks2, pos) == PatternAt(toks1, pos)
    decreases |toks1| - pos, 1
  {
    assert toks1[pos] == toks1[..n][pos] == toks2[..n][pos] == toks2[pos];
    assert pos + 1 < n;
    assert toks1[pos + 1] == toks1[..n][pos + 1] == toks2[..n][pos + 1] == toks2[pos + 1];
    if toks1[pos] == "(" || toks1[pos + 1] == "(" {
      NestedPatternFrame(toks1, toks2, pos, n);
    }
  }

  /** The nested patterns of a constructor pattern, read up to their `)` before `n`. */
  lemma {:induction false} NestedPatternFrame(toks1: seq<string>, toks2: seq<string>, pos: nat, n: nat)
    requires pos + 1 < |toks1| && AgreeUpTo(toks1, toks2, n)
    requires toks1[pos] == "(" || toks1[pos + 1] == "("
    requires PatternAt(toks1, pos).1 < n
    ensures pos + 2 <= |toks2| && PatternsUntil(toks2, pos + 2, ")") == PatternsUntil(toks1, pos + 2, ")")
    decreases |toks1| - pos, 0
  {
    var (args, p) := PatternsUntil(toks1, pos + 2, ")");
    assert p < |toks1|;
    PatternsUntilFrame(toks1, toks2, pos + 2, ")", n);
  }

  /** The pattern loop, stopped at `stop` before `n`, reads only the first `n` tokens. */
  lemma {:induction false} PatternsUntilFrame(toks1: seq<string>, toks2: seq<string>, pos: nat, stop: string, n: nat)
    requires pos <= |toks1| && AgreeUpTo(toks1, toks2, n)
    requires PatternsUntil(toks1, pos, stop).1 < n
    ensures pos <= |toks2| && PatternsUntil(toks2, pos, stop) == PatternsUntil(toks1, pos, stop)
    decreases |toks1| - pos, 2
  {
    assert toks1[pos] == toks1[..n][pos] == toks2[..n][pos] == toks2[pos];
    if toks1[pos] != stop {
      var (p, q) := PatternAt(toks1, pos);
      PatternFrame(toks1, toks2, pos, n);
      PatternsUntilFrame(toks1, toks2, q, stop, n);
    }
  }

  /** A definition whose patterns and body stop before `n` reads only the first `n` tokens. */
  lemma DefinitionFrame(toks1: seq<string>, toks2: seq<string>, p: nat, n: nat)
    requires |toks1| > 0 && AgreeUpTo(toks1, toks2, n)
    requires p == PatternsUntil(toks1, 1, "=").1 && p < n
    requires TermAt(toks1, p + 1).1 < n
    ensures DefinitionAt(toks2, 0) == DefinitionAt(toks1, 0)
  {
    assert toks1[0] == toks1[..n][0] == toks2[..n][0] == toks2[0];
    assert toks1[p] == toks1[..n][p] == toks2[..n][p] == toks2[p];
    PatternsUntilFrame(toks1, toks2, 1, "=", n);
    assert p + 1 < |toks1| && TermAt(toks1, p + 1) == ApplicationAt(toks1, p + 1);
    ApplicationFrame(toks1, toks2, p + 1, n);
    assert p + 1 < |toks2| && TermAt(toks2, p + 1) == ApplicationAt(toks2, p + 1);
    DefinitionAtParts(toks1, p);
    DefinitionAtParts(toks2, p);
  }

  /** `DefinitionAt` at 0, read through the patterns up to `p` and the term after it. */
  lemma DefinitionAtParts(toks: seq<string>, p: nat)
    requires |toks| > 0 && p == PatternsUntil(toks, 1, "=").1
    ensures DefinitionAt(toks, 0) ==
              if p >= |toks| || toks[p] != "=" || TermAt(toks, p + 1).0.None? then None
              else Some(FunctionDefinition(toks[0], PatternsUntil(toks, 1, "=").0, TermAt(toks, p + 1).0.value))
  {
  }

  /**
   * When a definition's body, read from `p + 1` after the `=` at `p`, stops
   * at a `)` at `e` that closes nothing, whatever follows that `)` on the
   * line is ignored: replacing it by any other tokens gives the same
   * definition.
   */
  lemma StrayParenthesisIgnored(toks: seq<string>, junk: seq<string>, p: nat, e: nat)
    requires |toks| > 0 && p == PatternsUntil(toks, 1, "=").1 && p < |toks|
    requires p + 1 <= |toks| && e == TermAt(toks, p + 1).1 && e < |toks|
    ensures toks[e] == ")"
    ensures DefinitionAt(toks[..e + 1] + junk, 0) == DefinitionAt(toks, 0)
  {
    var toks2 := toks[..e + 1] + junk;
    assert toks2[..e + 1] == toks[..e + 1];
    assert p + 1 < |toks| && TermAt(toks, p + 1) == ApplicationAt(toks, p + 1);
    DefinitionFrame(toks, toks2, p, e + 1);
  }
}
