/**
 * What the recursive-descent pseudo-code parser computes, as functions of the
 * token list and the cursor. Each function returns its result together with
 * the cursor position it leaves behind, exactly as the parser's methods leave
 * the shared `position` field.
 */
module ParserSpec {
  import opened Wrappers
  import opened Text
  import opened PseudoAst
  import opened Tokenizer

  /**
   * `token === 'Z' || token[0].toUpperCase() === token[0]`: the first character
   * is unchanged by upper-casing. Only ASCII letters change here, so the test
   * for `Z` adds nothing: a token is a constructor exactly when it does not
   * start with a lower-case letter.
   */
  predicate IsConstructorToken(token: string)
    ensures IsConstructorToken(token) <==> token != [] && !('a' <= token[0] <= 'z')
  {
    token == "Z" || (token != [] && !('a' <= token[0] <= 'z'))
  }

  /** The digits-and-dot part of a decimal numeral: at least one digit, at most one dot. */
  predicate IsUnsignedDecimal(s: string)
  {
    && (exists i :: 0 <= i < |s| && IsDigit(s[i]))
    && (forall i :: 0 <= i < |s| ==> IsDigit(s[i]) || s[i] == '.')
    && (forall i, j :: 0 <= i < j < |s| && s[i] == '.' ==> s[j] != '.')
  }

  /**
   * `!isNaN(Number(token))` for decimal numerals with an optional sign: a
   * numeral holds a digit, and every non-empty run of digits is one.
   */
  predicate IsNumeric(token: string)
    ensures IsNumeric(token) ==> exists i :: 0 <= i < |token| && IsDigit(token[i])
    ensures (token != [] && forall i :: 0 <= i < |token| ==> IsDigit(token[i])) ==> IsNumeric(token)
  {
    SignedDecimalDigit(token);
    if token != [] && (token[0] == '+' || token[0] == '-') then IsUnsignedDecimal(token[1..])
    else IsUnsignedDecimal(token)
  }

  /** A digit after the sign is a digit of the token; a run of digits has no sign and no dot. */
  lemma SignedDecimalDigit(token: string)
    ensures token != [] && (token[0] == '+' || token[0] == '-') && IsUnsignedDecimal(token[1..]) ==>
              exists i :: 0 <= i < |token| && IsDigit(token[i])
    ensures (token != [] && forall i :: 0 <= i < |token| ==> IsDigit(token[i])) ==> IsUnsignedDecimal(token)
  {
    if token != [] && (token[0] == '+' || token[0] == '-') && IsUnsignedDecimal(token[1..]) {
      var i :| 0 <= i < |token[1..]| && IsDigit(token[1..][i]);
      assert IsDigit(token[i + 1]);
    }
    if token != [] && forall i :: 0 <= i < |token| ==> IsDigit(token[i]) {
      assert IsDigit(token[0]);
    }
  }

  /** `parsePattern`: one pattern at `pos`, or `None` when the tokens run out first. */
  function PatternAt(toks: seq<string>, pos: nat): (r: (Option<Pattern>, nat))
    requires pos <= |toks|
    ensures pos <= r.1 <= |toks|
    ensures pos < |toks| ==> r.1 > pos
    ensures r.0.None? ==> r.1 == |toks|
    decreases |toks| - pos, 0
  {
    if pos >= |toks| then (None, pos)
    else if toks[pos] == "(" then
      if pos + 1 >= |toks| then (None, pos + 1)
      else
        var (args, p) := PatternsUntil(toks, pos + 2, ")");
        (Some(PCon(toks[pos + 1], args)), if p < |toks| then p + 1 else p)
    else if pos + 1 < |toks| && toks[pos + 1] == "(" then
      var (args, p) := PatternsUntil(toks, pos + 2, ")");
      (Some(PCon(toks[pos], args)), if p < |toks| then p + 1 else p)
    else
      var token := toks[pos];
      (Some(if IsConstructorToken(token) then PCon(token, []) else PVar(token)), pos + 1)
  }

  /** The pattern loops: parse patterns while tokens remain and the next one is not `stop`. */
  function PatternsUntil(toks: seq<string>, pos: nat, stop: string): (r: (seq<Pattern>, nat))
    requires pos <= |toks|
    ensures pos <= r.1 <= |toks|
    ensures r.1 == |toks| || toks[r.1] == stop
    decreases |toks| - pos, 1
  {
    if pos >= |toks| || toks[pos] == stop then ([], pos)
    else
      var (p, q) := PatternAt(toks, pos);
      var (rest, e) := PatternsUntil(toks, q, stop);
      (OptionToSeq(p) + rest, e)
  }

  /** `parseAtom`: a parenthesised application, a numeric literal or a name. */
  function AtomAt(toks: seq<string>, pos: nat): (r: (Option<Term>, nat))
    requires pos <= |toks|
    ensures pos <= r.1 <= |toks|
    ensures pos < |toks| ==> r.1 > pos
    ensures r.0.None? ==> r.1 == |toks|
    ensures r.0.Some? ==> WellFormedTerm(r.0.value)
    decreases |toks| - pos, 0
  {
    if pos >= |toks| then (None, pos)
    else if toks[pos] == "(" then
      var (t, q) := ApplicationAt(toks, pos + 1);
      (t, if q < |toks| && toks[q] == ")" then q + 1 else q)
    else
      var token := toks[pos];
      (Some(if IsNumeric(token) then Lit(token) else Var(token)), pos + 1)
  }

  /** `parseApplication`: an atom applied to the atoms that follow it up to `)` or the end. */
  function ApplicationAt(toks: seq<string>, pos: nat): (r: (Option<Term>, nat))
    requires pos <= |toks|
    ensures pos <= r.1 <= |toks|
    ensures pos < |toks| ==> r.1 > pos
    ensures r.0.None? ==> r.1 == |toks|
    ensures r.0.Some? ==> WellFormedTerm(r.0.value)
    ensures r.1 == |toks| || toks[r.1] == ")"
    decreases |toks| - pos, 2
  {
    var (left, q) := AtomAt(toks, pos);
    if left.None? then (None, q)
    else
      var (args, e) := ArgumentsAt(toks, q);
      (Some(if |args| > 0 then App(left.value, args) else left.value), e)
  }

  /** The argument loop of `parseApplication`. */
  function ArgumentsAt(toks: seq<string>, pos: nat): (r: (seq<Term>, nat))
    requires pos <= |toks|
    ensures pos <= r.1 <= |toks|
    ensures r.1 == |toks| || toks[r.1] == ")"
    ensures forall i :: 0 <= i < |r.0| ==> WellFormedTerm(r.0[i])
    decreases |toks| - pos, 1
  {
    if pos >= |toks| || toks[pos] == ")" then ([], pos)
    else
      var (a, q) := AtomAt(toks, pos);
      if a.None? then ([], q)
      else
        var (rest, e) := ArgumentsAt(toks, q);
        ([a.value] + rest, e)
  }

  /**
   * `parseTerm`: a term stops at the end of the tokens or at a `)` it leaves
   * unread; it fails only when the tokens run out.
   */
  function TermAt(toks: seq<string>, pos: nat): (r: (Option<Term>, nat))
    requires pos <= |toks|
    ensures pos <= r.1 <= |toks|
    ensures r.1 == |toks| || toks[r.1] == ")"
    ensures pos < |toks| ==> r.1 > pos
    ensures r.0.None? ==> r.1 == |toks|
    ensures r.0.Some? ==> WellFormedTerm(r.0.value)
  {
    if pos >= |toks| then (None, pos) else ApplicationAt(toks, pos)
  }

  /**
   * `parseDefinition`: a name, patterns up to `=`, then one term. A definition
   * takes at least three tokens, is named by its first one, and has a
   * well-formed body.
   */
  function DefinitionAt(toks: seq<string>, pos: nat): (r: Option<FunctionDefinition>)
    requires pos <= |toks|
    ensures r.Some? ==> pos + 2 < |toks| && r.value.name == toks[pos] && WellFormedTerm(r.value.body)
  {
    if pos >= |toks| then None
    else
      var (patterns, p) := PatternsUntil(toks, pos + 1, "=");
      if p >= |toks| || toks[p] != "=" then None
      else
        var (body, _) := TermAt(toks, p + 1);
        if body.None? then None else Some(FunctionDefinition(toks[pos], patterns, body.value))
  }

  /** The definition read from one (trimmed, non-blank) line: its name is a token of the line. */
  function LineDefinition(line: string): (r: Option<FunctionDefinition>)
    ensures r.Some? ==> IsToken(r.value.name) && WellFormedTerm(r.value.body)
  {
    DefinitionAt(Tokenize(line), 0)
  }

  /** `code.split('\n').map(trim).filter(non-empty)`, given the pieces of the split. */
  function NonBlankLines(pieces: seq<string>): (r: seq<string>)
    ensures |r| <= |pieces|
    ensures forall i :: 0 <= i < |r| ==> r[i] != [] && IsTrimmed(r[i])
  {
    if pieces == [] then []
    else
      var last := Trim(pieces[|pieces| - 1]);
      TrimIsTrimmed(pieces[|pieces| - 1]);
      NonBlankLines(pieces[..|pieces| - 1]) + (if last == [] then [] else [last])
  }

  /** The lines the parser visits. */
  function Lines(code: string): seq<string>
  {
    NonBlankLines(Split(code, "\n"))
  }

  /** The definitions of a list of lines, in line order, failed lines left out. */
  function ParseLines(lines: seq<string>): (defs: seq<FunctionDefinition>)
    ensures |defs| <= |lines|
    ensures forall i :: 0 <= i < |defs| ==> IsToken(defs[i].name) && WellFormedTerm(defs[i].body)
  {
    if lines == [] then []
    else ParseLines(lines[..|lines| - 1]) + OptionToSeq(LineDefinition(lines[|lines| - 1]))
  }

  /** `FunctionalParser.parse`: at most one definition per non-blank line, each named by a token with a well-formed body. */
  function Parse(code: string): (defs: seq<FunctionDefinition>)
    ensures |defs| <= |Lines(code)|
    ensures forall i :: 0 <= i < |defs| ==> IsToken(defs[i].name) && WellFormedTerm(defs[i].body)
  {
    ParseLines(Lines(code))
  }
}
