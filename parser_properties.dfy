/**
 * Properties of the pseudo-code parser: how lines that do not parse are
 * dropped, how patterns are classified, and that the parser inverts a printer
 * for clauses, from the token level up to whole multi-line programs.
 */
module ParserProperties {
  import opened Wrappers
  import opened Text
  import opened PseudoAst
  import opened Tokenizer
  import opened ParserSpec

  // ---------------------------------------------------------------------------
  // Dropped lines and the shape of the result
  // ---------------------------------------------------------------------------

  /** A line with no `=` token yields no definition. */
  lemma NoEqualsNoDefinition(toks: seq<string>)
    requires forall k :: 0 <= k < |toks| ==> toks[k] != "="
    ensures DefinitionAt(toks, 0) == None
  {
    if |toks| > 0 {
      var (_, p) := PatternsUntil(toks, 1, "=");
      assert p == |toks|;
    }
  }

  /** A line whose `=` is followed by nothing yields no definition. */
  lemma NoBodyNoDefinition(toks: seq<string>)
    requires |toks| >= 1 && toks[|toks| - 1] == "="
    requires forall k :: 0 <= k < |toks| - 1 ==> toks[k] != "="
    ensures DefinitionAt(toks, 0) == None
  {
    if |toks| > 1 {
      var (_, p) := PatternsUntil(toks, 1, "=");
      assert p == |toks| - 1 || p == |toks|;
    }
  }

  /**
   * Each definition comes from its own non-blank line: at most one per line,
   * every line trimmed and non-empty, and a definition's name is the first
   * token of the line it came from.
   */
  lemma {:induction false} ParseLinesSpec(lines: seq<string>)
    ensures |ParseLines(lines)| <= |lines|
    ensures forall d :: d in ParseLines(lines) ==>
              exists i :: 0 <= i < |lines| && LineDefinition(lines[i]) == Some(d)
  {
    if lines != [] {
      var init := lines[..|lines| - 1];
      ParseLinesSpec(init);
      forall d | d in ParseLines(lines)
        ensures exists i :: 0 <= i < |lines| && LineDefinition(lines[i]) == Some(d)
      {
        if d in ParseLines(init) {
          var i :| 0 <= i < |init| && LineDefinition(init[i]) == Some(d);
          assert lines[i] == init[i];
        } else {
          assert LineDefinition(lines[|lines| - 1]) == Some(d);
        }
      }
    }
  }

  lemma DefinitionNameIsFirstToken(toks: seq<string>)
    requires DefinitionAt(toks, 0).Some?
    ensures |toks| > 0 && DefinitionAt(toks, 0).value.name == toks[0]
    ensures WellFormedTerm(DefinitionAt(toks, 0).value.body)
  {
    var (_, p) := PatternsUntil(toks, 1, "=");
    var (body, _) := TermAt(toks, p + 1);
    assert body.Some?;
  }

  // ---------------------------------------------------------------------------
  // Pattern classification
  // ---------------------------------------------------------------------------

  /** `( Name p* )` is a constructor named by the token after `(`, whatever its case. */
  lemma ParenthesisedIsConstructor(toks: seq<string>, pos: nat)
    requires pos + 1 < |toks| && toks[pos] == "("
    ensures PatternAt(toks, pos).0.Some?
    ensures PatternAt(toks, pos).0.value == PCon(toks[pos + 1], PatternsUntil(toks, pos + 2, ")").0)
  {
  }

  /**
   * `Name ( p* )` is a constructor named `Name`, whatever its case: a variable
   * directly followed by a parenthesised pattern is read as a constructor
   * applied to the parenthesised patterns.
   */
  lemma NameBeforeParenthesisIsConstructor(toks: seq<string>, pos: nat)
    requires pos + 1 < |toks| && toks[pos] != "(" && toks[pos + 1] == "("
    ensures PatternAt(toks, pos).0 == Some(PCon(toks[pos], PatternsUntil(toks, pos + 2, ")").0))
  {
  }

  /** A bare token is a constructor iff it is `Z` or starts with a character upper-casing leaves alone. */
  lemma BareTokenClassification(toks: seq<string>, pos: nat)
    requires pos < |toks| && toks[pos] != "("
    requires pos + 1 == |toks| || toks[pos + 1] != "("
    ensures PatternAt(toks, pos) == (Some(PCon(toks[pos], [])), pos + 1) <==> IsConstructorToken(toks[pos])
    ensures PatternAt(toks, pos) == (Some(PVar(toks[pos])), pos + 1) <==> !IsConstructorToken(toks[pos])
  {
  }

  /** The example that shows it: in `add n ( S m )` the pattern list is one constructor `n`. */
  lemma VariableBeforeParenthesisExample()
    ensures PatternsUntil(["add", "n", "(", "S", "m", ")", "="], 1, "=")
         == ([PCon("n", [PCon("S", []), PVar("m")])], 6)
  {
    var toks := ["add", "n", "(", "S", "m", ")", "="];
    var m, s := PVar("m"), PCon("S", []);
    assert PatternAt(toks, 4) == (Some(m), 5);
    assert PatternsUntil(toks, 5, ")") == ([], 5);
    assert OptionToSeq(Some(m)) + [] == [m];
    assert PatternsUntil(toks, 4, ")") == ([m], 5);
    assert PatternAt(toks, 3) == (Some(s), 4);
    assert OptionToSeq(Some(s)) + [m] == [s, m];
    assert PatternsUntil(toks, 3, ")") == ([s, m], 5);
    assert PatternAt(toks, 1) == (Some(PCon("n", [s, m])), 6);
    assert PatternsUntil(toks, 6, "=") == ([], 6);
    assert OptionToSeq(Some(PCon("n", [s, m]))) + [] == [PCon("n", [s, m])];
  }

  // ---------------------------------------------------------------------------
  // A printer, and the parser as its inverse
  // ---------------------------------------------------------------------------

  /** A name the printer can write as one token: non-empty, no white space, no delimiter. */
  predicate IsName(s: string)
  {
    s != [] && IsWord(s)
  }

  /** Patterns the printer can write so that they read back unchanged. */
  predicate PrintablePattern(p: Pattern)
  {
    match p
    case PVar(x) => IsName(x) && !IsConstructorToken(x)
    case PCon(c, args) => IsName(c) && forall i :: 0 <= i < |args| ==> PrintablePattern(args[i])
  }

  /** `Name ( p* )` for a constructor; a bare token for a variable or a constructor that reads as one. */
  function PatternTokens(p: Pattern): (r: seq<string>)
    ensures |r| >= 1 && r[0] == p.name
  {
    match p
    case PVar(x) => [x]
    case PCon(c, args) =>
      if args == [] && IsConstructorToken(c) then [c] else [c, "("] + PatternListTokens(args) + [")"]
  }

  function PatternListTokens(ps: seq<Pattern>): seq<string>
  {
    if ps == [] then [] else PatternTokens(ps[0]) + PatternListTokens(ps[1..])
  }

  /** `toks` spells `x` from index `lo` on. */
  predicate SpellsAt(toks: seq<string>, lo: nat, x: seq<string>)
  {
    lo + |x| <= |toks| && forall k :: 0 <= k < |x| ==> toks[lo + k] == x[k]
  }

  /** What `toks` spells from `lo` on, split after its first part. */
  lemma SpellsSplit(toks: seq<string>, lo: nat, x: seq<string>, y: seq<string>)
    requires SpellsAt(toks, lo, x + y)
    ensures SpellsAt(toks, lo, x) && SpellsAt(toks, lo + |x|, y)
    ensures x != [] ==> toks[lo] == x[0]
    ensures y != [] ==> toks[lo + |x|] == y[0]
  {
    forall k | 0 <= k < |x|
      ensures toks[lo + k] == x[k]
    {
      assert (x + y)[k] == x[k];
    }
    forall k | 0 <= k < |y|
      ensures toks[lo + |x| + k] == y[k]
    {
      assert (x + y)[|x| + k] == y[k];
    }
  }

  /** `toks` spells `[a, b] + inner + [c]` from `lo` on: the named-constructor shape. */
  lemma SpellsWrapped(toks: seq<string>, lo: nat, a: string, b: string, inner: seq<string>, c: string)
    requires SpellsAt(toks, lo, [a, b] + inner + [c])
    ensures toks[lo] == a && toks[lo + 1] == b && toks[lo + 2 + |inner|] == c
    ensures SpellsAt(toks, lo + 2, inner)
  {
    var w := [a, b] + inner + [c];
    assert w[0] == a && w[1] == b && w[2 + |inner|] == c;
    forall k | 0 <= k < |inner|
      ensures toks[lo + 2 + k] == inner[k]
    {
      assert w[2 + k] == inner[k];
    }
  }

  /** `toks` spells `["("] + inner + [")"]` from `lo` on: the parenthesised shape. */
  lemma SpellsParenthesised(toks: seq<string>, lo: nat, inner: seq<string>)
    requires SpellsAt(toks, lo, ["("] + inner + [")"])
    ensures toks[lo] == "(" && toks[lo + 1 + |inner|] == ")"
    ensures SpellsAt(toks, lo + 1, inner)
  {
    var w := ["("] + inner + [")"];
    assert w[0] == "(" && w[1 + |inner|] == ")";
    forall k | 0 <= k < |inner|
      ensures toks[lo + 1 + k] == inner[k]
    {
      assert w[1 + k] == inner[k];
    }
  }

  /** The layout of a clause's tokens `[name] + pats + ["="] + body`. */
  lemma ClauseSpelling(name: string, pats: seq<string>, body: seq<string>)
    ensures var toks := [name] + pats + ["="] + body;
      && |toks| == 2 + |pats| + |body|
      && toks[0] == name && toks[1 + |pats|] == "="
      && SpellsAt(toks, 1, pats) && SpellsAt(toks, 2 + |pats|, body)
  {
    var toks := [name] + pats + ["="] + body;
    forall k | 0 <= k < |pats|
      ensures toks[1 + k] == pats[k]
    {
    }
    forall k | 0 <= k < |body|
      ensures toks[2 + |pats| + k] == body[k]
    {
    }
  }

  // One step of each parsing function, stated once so that the proofs below need not unfold them.

  lemma PatternAtNamed(toks: seq<string>, pos: nat, args: seq<Pattern>, p: nat)
    requires pos + 1 < |toks| && toks[pos] != "(" && toks[pos + 1] == "("
    requires PatternsUntil(toks, pos + 2, ")") == (args, p) && p < |toks|
    ensures PatternAt(toks, pos) == (Some(PCon(toks[pos], args)), p + 1)
  {
  }

  lemma PatternAtBare(toks: seq<string>, pos: nat)
    requires pos < |toks| && toks[pos] != "("
    requires pos + 1 == |toks| || toks[pos + 1] != "("
    ensures PatternAt(toks, pos)
         == (Some(if IsConstructorToken(toks[pos]) then PCon(toks[pos], []) else PVar(toks[pos])), pos + 1)
  {
  }

  lemma PatternsUntilStep(toks: seq<string>, pos: nat, stop: string, ps: seq<Pattern>, q: nat, e: nat)
    requires pos < |toks| && toks[pos] != stop && ps != []
    requires PatternAt(toks, pos) == (Some(ps[0]), q)
    requires PatternsUntil(toks, q, stop) == (ps[1..], e)
    ensures PatternsUntil(toks, pos, stop) == (ps, e)
  {
    assert [ps[0]] + ps[1..] == ps;
  }

  lemma AtomAtParenthesised(toks: seq<string>, pos: nat, t: Term, q: nat)
    requires pos < |toks| && toks[pos] == "("
    requires ApplicationAt(toks, pos + 1) == (Some(t), q) && q < |toks| && toks[q] == ")"
    ensures AtomAt(toks, pos) == (Some(t), q + 1)
  {
  }

  lemma AtomAtBare(toks: seq<string>, pos: nat)
    requires pos < |toks| && toks[pos] != "("
    ensures AtomAt(toks, pos) == (Some(if IsNumeric(toks[pos]) then Lit(toks[pos]) else Var(toks[pos])), pos + 1)
  {
  }

  lemma ApplicationAtStep(toks: seq<string>, pos: nat, f: Term, q: nat, args: seq<Term>, e: nat)
    requires pos <= |toks|
    requires AtomAt(toks, pos) == (Some(f), q)
    requires ArgumentsAt(toks, q) == (args, e)
    ensures ApplicationAt(toks, pos) == (Some(if |args| > 0 then App(f, args) else f), e)
  {
  }

  lemma ArgumentsAtStop(toks: seq<string>, pos: nat)
    requires pos == |toks| || (pos < |toks| && toks[pos] == ")")
    ensures ArgumentsAt(toks, pos) == ([], pos)
  {
  }

  lemma ArgumentsAtStep(toks: seq<string>, pos: nat, ts: seq<Term>, q: nat, e: nat)
    requires pos < |toks| && toks[pos] != ")" && ts != []
    requires AtomAt(toks, pos) == (Some(ts[0]), q)
    requires ArgumentsAt(toks, q) == (ts[1..], e)
    ensures ArgumentsAt(toks, pos) == (ts, e)
  {
    assert [ts[0]] + ts[1..] == ts;
  }

  lemma {:induction false} PatternRoundTrip(p: Pattern, toks: seq<string>, pos: nat)
    requires PrintablePattern(p)
    requires SpellsAt(toks, pos, PatternTokens(p))
    requires pos + |PatternTokens(p)| == |toks| || toks[pos + |PatternTokens(p)|] != "("
    ensures PatternAt(toks, pos) == (Some(p), pos + |PatternTokens(p)|)
    decreases p
  {
    var pt := PatternTokens(p);
    assert toks[pos] == pt[0] == p.name;
    assert toks[pos] != "(" by { assert IsName(p.name); assert !IsDelimiter(p.name[0]); }
    if p.PCon? && !(p.args == [] && IsConstructorToken(p.name)) {
      var inner := PatternListTokens(p.args);
      assert pt == [p.name, "("] + inner + [")"];
      SpellsWrapped(toks, pos, p.name, "(", inner, ")");
      PatternListRoundTrip(p.args, toks, pos + 2, ")");
      PatternAtNamed(toks, pos, p.args, pos + 2 + |inner|);
    } else {
      assert |pt| == 1;
      PatternAtBare(toks, pos);
    }
  }

  /** A name is never one of the three delimiter tokens. */
  lemma NameIsNoDelimiter(x: string)
    requires IsName(x)
    ensures x != "(" && x != ")" && x != "="
  {
    assert !IsDelimiter(x[0]);
  }

  lemma PatternsUntilStop(toks: seq<string>, pos: nat, stop: string)
    requires pos < |toks| && toks[pos] == stop
    ensures PatternsUntil(toks, pos, stop) == ([], pos)
  {
  }

  /** A printable pattern begins with a name. */
  lemma PrintableName(p: Pattern)
    requires PrintablePattern(p)
    ensures IsName(p.name)
  {
  }

  lemma PatternListTokensCons(ps: seq<Pattern>)
    requires ps != []
    ensures PatternListTokens(ps) == PatternTokens(ps[0]) + PatternListTokens(ps[1..])
    ensures PatternListTokens(ps)[0] == ps[0].name
  {
  }

  /** The token facts the list round trip needs, for a list spelt as `first + others` and closed by `stop`. */
  lemma SpellsListSplit(toks: seq<string>, pos: nat, first: seq<string>, others: seq<string>, stop: string)
    requires first != [] && IsName(first[0]) && (others != [] ==> IsName(others[0]))
    requires stop == ")" || stop == "="
    requires SpellsAt(toks, pos, first + others)
    requires pos + |first| + |others| < |toks| && toks[pos + |first| + |others|] == stop
    ensures SpellsAt(toks, pos, first) && SpellsAt(toks, pos + |first|, others)
    ensures toks[pos] != stop && toks[pos + |first|] != "("
  {
    SpellsSplit(toks, pos, first, others);
    NameIsNoDelimiter(first[0]);
    if others != [] {
      NameIsNoDelimiter(others[0]);
    }
  }

  /** A non-empty list of printable patterns is spelt starting with a name. */
  lemma PatternListFirst(ps: seq<Pattern>)
    requires forall i :: 0 <= i < |ps| ==> PrintablePattern(ps[i])
    ensures ps != [] ==> PatternListTokens(ps) != [] && IsName(PatternListTokens(ps)[0])
  {
    if ps != [] {
      PatternListTokensCons(ps);
      PrintableName(ps[0]);
    }
  }

  lemma {:induction false} PatternListRoundTrip(ps: seq<Pattern>, toks: seq<string>, pos: nat, stop: string)
    requires forall i :: 0 <= i < |ps| ==> PrintablePattern(ps[i])
    requires stop == ")" || stop == "="
    requires SpellsAt(toks, pos, PatternListTokens(ps))
    requires pos + |PatternListTokens(ps)| < |toks| && toks[pos + |PatternListTokens(ps)|] == stop
    ensures PatternsUntil(toks, pos, stop) == (ps, pos + |PatternListTokens(ps)|)
    decreases ps
  {
    if ps == [] {
      PatternsUntilStop(toks, pos, stop);
    } else {
      var first, others := PatternTokens(ps[0]), PatternListTokens(ps[1..]);
      var q, e := pos + |first|, pos + |first| + |others|;
      PatternListTokensCons(ps);
      PrintableName(ps[0]);
      PatternListFirst(ps[1..]);
      SpellsListSplit(toks, pos, first, others, stop);
      PatternRoundTrip(ps[0], toks, pos);
      assert e < |toks| && toks[e] == stop;
      PatternListRoundTrip(ps[1..], toks, q, stop);
      PatternsUntilStep(toks, pos, stop, ps, q, e);
    }
  }

  /** Terms the printer can write so that they read back unchanged. */
  predicate PrintableTerm(t: Term)
  {
    match t
    case Var(x) => IsName(x) && !IsNumeric(x)
    case Lit(v) => IsName(v) && IsNumeric(v)
    case App(f, args) =>
      |args| > 0 && PrintableTerm(f) && forall i :: 0 <= i < |args| ==> PrintableTerm(args[i])
  }

  /** A term in argument position: a bare token, or a parenthesised application. */
  function AtomTokens(t: Term): (r: seq<string>)
    ensures |r| >= 1
    decreases t, 1
  {
    match t
    case Var(x) => [x]
    case Lit(v) => [v]
    case App(_, _) => ["("] + TermTokens(t) + [")"]
  }

  /** A body: the head atom followed by the argument atoms. */
  function TermTokens(t: Term): (r: seq<string>)
    ensures |r| >= 1
    decreases t, 0
  {
    match t
    case Var(x) => [x]
    case Lit(v) => [v]
    case App(f, args) => AtomTokens(f) + AtomListTokens(args)
  }

  function AtomListTokens(ts: seq<Term>): seq<string>
  {
    if ts == [] then [] else AtomTokens(ts[0]) + AtomListTokens(ts[1..])
  }

  /** A bare (non-application) printable term is one name token. */
  lemma BareTermToken(t: Term)
    requires PrintableTerm(t) && !t.App?
    ensures t.Var? ==> AtomTokens(t) == TermTokens(t) == [t.name]
    ensures t.Lit? ==> AtomTokens(t) == TermTokens(t) == [t.value]
    ensures IsName(AtomTokens(t)[0]) && AtomTokens(t)[0] != "(" && AtomTokens(t)[0] != ")"
  {
    assert !IsDelimiter(AtomTokens(t)[0][0]);
  }

  /** A printable atom never starts with `)`. */
  lemma AtomFirstToken(t: Term)
    requires PrintableTerm(t)
    ensures AtomTokens(t)[0] != ")"
  {
    if !t.App? {
      BareTermToken(t);
    }
  }

  lemma {:induction false} AtomRoundTrip(t: Term, toks: seq<string>, pos: nat)
    requires PrintableTerm(t)
    requires SpellsAt(toks, pos, AtomTokens(t))
    ensures AtomAt(toks, pos) == (Some(t), pos + |AtomTokens(t)|)
    decreases t, 1
  {
    var at := AtomTokens(t);
    if t.App? {
      var inner := TermTokens(t);
      assert at == ["("] + inner + [")"];
      SpellsParenthesised(toks, pos, inner);
      TermRoundTrip(t, toks, pos + 1);
      AtomAtParenthesised(toks, pos, t, pos + 1 + |inner|);
    } else {
      BareTermToken(t);
      assert toks[pos] == at[0];
      AtomAtBare(toks, pos);
    }
  }

  /** A bare term closed by `)` or the end of the line reads back as itself. */
  lemma BareTermRoundTrip(t: Term, toks: seq<string>, pos: nat)
    requires PrintableTerm(t) && !t.App?
    requires pos < |toks| && toks[pos] == TermTokens(t)[0]
    requires pos + 1 == |toks| || toks[pos + 1] == ")"
    ensures ApplicationAt(toks, pos) == (Some(t), pos + 1)
  {
    BareTermToken(t);
    AtomAtBare(toks, pos);
    assert ArgumentsAt(toks, pos + 1) == ([], pos + 1);
    ApplicationAtStep(toks, pos, t, pos + 1, [], pos + 1);
  }

  lemma {:induction false} TermRoundTrip(t: Term, toks: seq<string>, pos: nat)
    requires PrintableTerm(t)
    requires SpellsAt(toks, pos, TermTokens(t))
    requires pos + |TermTokens(t)| == |toks| || toks[pos + |TermTokens(t)|] == ")"
    ensures ApplicationAt(toks, pos) == (Some(t), pos + |TermTokens(t)|)
    decreases t, 0
  {
    var tt := TermTokens(t);
    if t.App? {
      var head := AtomTokens(t.fn);
      var tail := AtomListTokens(t.args);
      assert tt == head + tail;
      SpellsSplit(toks, pos, head, tail);
      AtomRoundTrip(t.fn, toks, pos);
      AtomListRoundTrip(t.args, toks, pos + |head|);
      ApplicationAtStep(toks, pos, t.fn, pos + |head|, t.args, pos + |head| + |tail|);
    } else {
      BareTermToken(t);
      BareTermRoundTrip(t, toks, pos);
    }
  }

  lemma {:induction false} AtomListRoundTrip(ts: seq<Term>, toks: seq<string>, pos: nat)
    requires forall i :: 0 <= i < |ts| ==> PrintableTerm(ts[i])
    requires SpellsAt(toks, pos, AtomListTokens(ts))
    requires pos + |AtomListTokens(ts)| == |toks| || toks[pos + |AtomListTokens(ts)|] == ")"
    ensures ArgumentsAt(toks, pos) == (ts, pos + |AtomListTokens(ts)|)
    decreases ts
  {
    if ts == [] {
      ArgumentsAtStop(toks, pos);
    } else {
      var first := AtomTokens(ts[0]);
      var others := AtomListTokens(ts[1..]);
      assert AtomListTokens(ts) == first + others;
      var q, e := pos + |first|, pos + |first| + |others|;
      SpellsSplit(toks, pos, first, others);
      AtomFirstToken(ts[0]);
      AtomRoundTrip(ts[0], toks, pos);
      assert e == |toks| || toks[e] == ")";
      AtomListRoundTrip(ts[1..], toks, q);
      ArgumentsAtStep(toks, pos, ts, q, e);
    }
  }

  /** Clauses the printer can write so that they read back unchanged. */
  predicate PrintableDefinition(d: FunctionDefinition)
  {
    && IsName(d.name)
    && (forall i :: 0 <= i < |d.patterns| ==> PrintablePattern(d.patterns[i]))
    && PrintableTerm(d.body)
  }

  /** The tokens of a clause: name, patterns, `=`, body. */
  function DefinitionTokens(d: FunctionDefinition): seq<string>
  {
    [d.name] + PatternListTokens(d.patterns) + ["="] + TermTokens(d.body)
  }

  /** One step of `DefinitionAt`: the name, the patterns up to `=`, then the body. */
  lemma DefinitionAtStep(toks: seq<string>, ps: seq<Pattern>, p: nat, t: Term)
    requires 0 < |toks| && p < |toks| && toks[p] == "="
    requires PatternsUntil(toks, 1, "=") == (ps, p)
    requires ApplicationAt(toks, p + 1).0 == Some(t)
    ensures DefinitionAt(toks, 0) == Some(FunctionDefinition(toks[0], ps, t))
  {
  }

  /** The parser reads back every printable clause from its tokens. */
  lemma DefinitionRoundTrip(d: FunctionDefinition)
    requires PrintableDefinition(d)
    ensures DefinitionAt(DefinitionTokens(d), 0) == Some(d)
  {
    var pats := PatternListTokens(d.patterns);
    var body := TermTokens(d.body);
    var toks := DefinitionTokens(d);
    ClauseSpelling(d.name, pats, body);
    PatternListRoundTrip(d.patterns, toks, 1, "=");
    TermRoundTrip(d.body, toks, 2 + |pats|);
    DefinitionAtStep(toks, d.patterns, 1 + |pats|, d.body);
  }

  // ---------------------------------------------------------------------------
  // Whole programs: one printed clause per line
  // ---------------------------------------------------------------------------

  lemma NameIsToken(x: string)
    requires IsName(x)
    ensures IsToken(x)
  {
  }

  lemma AllTokensAppend(a: seq<string>, b: seq<string>)
    requires AllTokens(a) && AllTokens(b)
    ensures AllTokens(a + b)
  {
    forall k | 0 <= k < |a + b|
      ensures IsToken((a + b)[k])
    {
      if k < |a| { assert (a + b)[k] == a[k]; } else { assert (a + b)[k] == b[k - |a|]; }
    }
  }

  lemma DelimitersAreTokens()
    ensures IsToken("(") && IsToken(")") && IsToken("=")
  {
  }

  lemma {:induction false} PatternTokensAreTokens(p: Pattern)
    requires PrintablePattern(p)
    ensures AllTokens(PatternTokens(p))
    decreases p, 1
  {
    NameIsToken(p.name);
    if p.PCon? && !(p.args == [] && IsConstructorToken(p.name)) {
      PatternListTokensAreTokens(p.args);
      DelimitersAreTokens();
      AllTokensAppend([p.name, "("], PatternListTokens(p.args));
      AllTokensAppend([p.name, "("] + PatternListTokens(p.args), [")"]);
    }
  }

  lemma {:induction false} PatternListTokensAreTokens(ps: seq<Pattern>)
    requires forall i :: 0 <= i < |ps| ==> PrintablePattern(ps[i])
    ensures AllTokens(PatternListTokens(ps))
    decreases ps, 0
  {
    if ps != [] {
      PatternTokensAreTokens(ps[0]);
      PatternListTokensAreTokens(ps[1..]);
      AllTokensAppend(PatternTokens(ps[0]), PatternListTokens(ps[1..]));
    }
  }

  lemma {:induction false} AtomTokensAreTokens(t: Term)
    requires PrintableTerm(t)
    ensures AllTokens(AtomTokens(t))
    decreases t, 1
  {
    match t
    case Var(x) => NameIsToken(x);
    case Lit(v) => NameIsToken(v);
    case App(_, _) =>
      TermTokensAreTokens(t);
      DelimitersAreTokens();
      AllTokensAppend(["("], TermTokens(t));
      AllTokensAppend(["("] + TermTokens(t), [")"]);
  }

  lemma {:induction false} TermTokensAreTokens(t: Term)
    requires PrintableTerm(t)
    ensures AllTokens(TermTokens(t))
    decreases t, 0
  {
    match t
    case Var(x) => NameIsToken(x);
    case Lit(v) => NameIsToken(v);
    case App(f, args) =>
      AtomTokensAreTokens(f);
      AtomListTokensAreTokens(args);
      AllTokensAppend(AtomTokens(f), AtomListTokens(args));
  }

  lemma {:induction false} AtomListTokensAreTokens(ts: seq<Term>)
    requires forall i :: 0 <= i < |ts| ==> PrintableTerm(ts[i])
    ensures AllTokens(AtomListTokens(ts))
    decreases ts
  {
    if ts != [] {
      AtomTokensAreTokens(ts[0]);
      AtomListTokensAreTokens(ts[1..]);
      AllTokensAppend(AtomTokens(ts[0]), AtomListTokens(ts[1..]));
    }
  }

  /** A clause printed on one line, its tokens separated by single spaces. */
  function DefinitionLine(d: FunctionDefinition): string
  {
    Join(DefinitionTokens(d), " ")
  }

  /** A program printed one clause per line. */
  function ProgramText(defs: seq<FunctionDefinition>): string
  {
    Join(seq(|defs|, i requires 0 <= i < |defs| => DefinitionLine(defs[i])), "\n")
  }

  /**
   * A printed clause is a non-blank, trimmed line without a line break, and
   * the parser reads the clause back from it.
   */
  lemma DefinitionLineRoundTrip(d: FunctionDefinition)
    requires PrintableDefinition(d)
    ensures DefinitionLine(d) != [] && IsTrimmed(DefinitionLine(d)) && '\n' !in DefinitionLine(d)
    ensures LineDefinition(DefinitionLine(d)) == Some(d)
  {
    var toks := DefinitionTokens(d);
    NameIsToken(d.name);
    PatternListTokensAreTokens(d.patterns);
    TermTokensAreTokens(d.body);
    DelimitersAreTokens();
    AllTokensAppend([d.name], PatternListTokens(d.patterns));
    AllTokensAppend([d.name] + PatternListTokens(d.patterns), ["="]);
    AllTokensAppend([d.name] + PatternListTokens(d.patterns) + ["="], TermTokens(d.body));
    assert AllTokens(toks);
    TokenizeJoin(toks);
    DefinitionRoundTrip(d);
    JoinEnds(toks, " ");
    var first, last := toks[0], toks[|toks| - 1];
    assert IsToken(first) && IsToken(last);
    assert !IsSpace(first[0]) && !IsSpace(last[|last| - 1]);
    forall k | 0 <= k < |toks|
      ensures '\n' !in toks[k]
    {
      assert IsToken(toks[k]);
    }
    JoinAvoids(toks, " ", '\n');
  }

  lemma LastSplit<T>(s: seq<T>)
    requires s != []
    ensures s[..|s| - 1] + [s[|s| - 1]] == s
  {
  }

  lemma {:induction false} NonBlankTrimmedLines(lines: seq<string>)
    requires forall i :: 0 <= i < |lines| ==> lines[i] != [] && IsTrimmed(lines[i])
    ensures NonBlankLines(lines) == lines
  {
    if lines != [] {
      var init, last := lines[..|lines| - 1], lines[|lines| - 1];
      NonBlankTrimmedLines(init);
      TrimTrimmed(last);
      LastSplit(lines);
      assert NonBlankLines(lines) == NonBlankLines(init) + [last];
    }
  }

  lemma {:induction false} ParseLinesAll(lines: seq<string>, defs: seq<FunctionDefinition>)
    requires |lines| == |defs|
    requires forall i :: 0 <= i < |lines| ==> LineDefinition(lines[i]) == Some(defs[i])
    ensures ParseLines(lines) == defs
  {
    if lines != [] {
      var n := |lines| - 1;
      ParseLinesAll(lines[..n], defs[..n]);
      assert OptionToSeq(Some(defs[n])) == [defs[n]];
      assert defs[..n] + [defs[n]] == defs;
    }
  }

  /** Printing a program one clause per line and parsing it gives back the clauses. */
  lemma ProgramRoundTrip(defs: seq<FunctionDefinition>)
    requires forall i :: 0 <= i < |defs| ==> PrintableDefinition(defs[i])
    ensures Parse(ProgramText(defs)) == defs
  {
    var lines := seq(|defs|, i requires 0 <= i < |defs| => DefinitionLine(defs[i]));
    forall i | 0 <= i < |defs|
      ensures lines[i] != [] && IsTrimmed(lines[i]) && '\n' !in lines[i]
      ensures LineDefinition(lines[i]) == Some(defs[i])
    {
      DefinitionLineRoundTrip(defs[i]);
    }
    if defs == [] {
      assert ProgramText(defs) == [];
      assert Split([], "\n") == [[]];
      assert Trim([]) == [];
      assert Lines([]) == [];
    } else {
      SplitJoin(lines, "\n");
      assert Split(ProgramText(defs), "\n") == lines;
      NonBlankTrimmedLines(lines);
      ParseLinesAll(lines, defs);
    }
  }
}
