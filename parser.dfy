/**
 * The pseudo-code parser as the source writes it: an object holding the token
 * list of the current line and a cursor, with one method per grammar rule
 * advancing the cursor. Each method is proved to compute the corresponding
 * function of `ParserSpec`, result and final cursor alike.
 */
module Parser {
  import opened Wrappers
  import opened PseudoAst
  import opened Tokenizer
  import opened ParserSpec

  lemma ParseLinesSnoc(lines: seq<string>, i: nat)
    requires i < |lines|
    ensures ParseLines(lines[..i + 1]) == ParseLines(lines[..i]) + OptionToSeq(LineDefinition(lines[i]))
  {
    assert lines[..i + 1][..i] == lines[..i];
  }

  /** One turn of the pattern loop, as `PatternsUntil` takes it. */
  lemma PatternsUntilUnfold(toks: seq<string>, pos: nat, stop: string)
    requires pos < |toks| && toks[pos] != stop
    ensures var (p, q) := PatternAt(toks, pos);
            PatternsUntil(toks, pos, stop) == (OptionToSeq(p) + PatternsUntil(toks, q, stop).0, PatternsUntil(toks, q, stop).1)
  {
  }

  /** One turn of the argument loop, as `ArgumentsAt` takes it. */
  lemma ArgumentsUnfold(toks: seq<string>, pos: nat)
    requires pos < |toks| && toks[pos] != ")"
    ensures var (a, q) := AtomAt(toks, pos);
            ArgumentsAt(toks, pos) == if a.None? then ([], q) else ([a.value] + ArgumentsAt(toks, q).0, ArgumentsAt(toks, q).1)
  {
  }

  /** The loop invariant `whole == done + rest` carried over one more element. */
  lemma ConcatStep<T>(whole: seq<T>, done: seq<T>, step: seq<T>, rest: seq<T>, next: seq<T>)
    requires next == done + step
    ensures whole == done + (step + rest) ==> whole == next + rest
  {
  }

  class FunctionalParser {
    var tokens: seq<string>
    var position: nat

    constructor ()
      ensures tokens == [] && position == 0
    {
      tokens := [];
      position := 0;
    }

    /** `parse`: tokenize each non-blank line afresh and keep the definitions that parse. */
    method Parse(code: string) returns (definitions: seq<FunctionDefinition>)
      modifies this
      ensures definitions == ParserSpec.Parse(code)
    {
      var lines := Lines(code);
      definitions := [];
      for i := 0 to |lines|
        invariant definitions == ParseLines(lines[..i])
      {
        tokens := Tokenize(lines[i]);
        position := 0;
        var def := ParseDefinition();
        ParseLinesSnoc(lines, i);
        if def.Some? {
          definitions := definitions + [def.value];
        }
      }
      assert lines[..|lines|] == lines;
    }

    /** `parseDefinition`. */
    method ParseDefinition() returns (def: Option<FunctionDefinition>)
      requires position <= |tokens|
      modifies this`position
      ensures def == DefinitionAt(tokens, old(position))
    {
      if position >= |tokens| {
        return None;
      }
      var name := tokens[position];
      position := position + 1;
      var patterns := ParsePatternsUntil("=");
      if position >= |tokens| || tokens[position] != "=" {
        return None;
      }
      position := position + 1;
      var body := ParseTerm();
      if body.None? {
        return None;
      }
      def := Some(FunctionDefinition(name, patterns, body.value));
    }

    /** The loop `while (position < length && tokens[position] !== stop)` collecting patterns. */
    method ParsePatternsUntil(stop: string) returns (patterns: seq<Pattern>)
      requires position <= |tokens|
      modifies this`position
      ensures (patterns, position) == PatternsUntil(tokens, old(position), stop)
      decreases |tokens| - position, 1
    {
      patterns := [];
      ghost var toks, start := tokens, position;
      ghost var whole := PatternsUntil(toks, start, stop);
      assert whole.0 == [] + whole.0;
      while position < |tokens| && tokens[position] != stop
        invariant tokens == toks && start <= position <= |toks|
        invariant whole.1 == PatternsUntil(toks, position, stop).1
        invariant whole.0 == patterns + PatternsUntil(toks, position, stop).0
        decreases |tokens| - position
      {
        ghost var before, prev := position, patterns;
        var pattern := ParsePattern();
        PatternsUntilUnfold(toks, before, stop);
        if pattern.Some? {
          patterns := patterns + [pattern.value];
        }
        ConcatStep(whole.0, prev, OptionToSeq(pattern), PatternsUntil(toks, position, stop).0, patterns);
      }
      assert patterns + [] == patterns;
    }

    /** `parsePattern`. */
    method ParsePattern() returns (pattern: Option<Pattern>)
      requires position <= |tokens|
      modifies this`position
      ensures (pattern, position) == PatternAt(tokens, old(position))
      decreases |tokens| - position, 0
    {
      if position >= |tokens| {
        return None;
      }
      var token := tokens[position];
      if token == "(" {
        position := position + 1;
        if position >= |tokens| {
          return None;
        }
        var constructorName := tokens[position];
        position := position + 1;
        var args := ParsePatternsUntil(")");
        if position < |tokens| {
          position := position + 1;
        }
        return Some(PCon(constructorName, args));
      }
      position := position + 1;
      if position < |tokens| && tokens[position] == "(" {
        position := position + 1;
        var args := ParsePatternsUntil(")");
        if position < |tokens| {
          position := position + 1;
        }
        return Some(PCon(token, args));
      }
      pattern := Some(if IsConstructorToken(token) then PCon(token, []) else PVar(token));
    }

    /** `parseTerm`. */
    method ParseTerm() returns (term: Option<Term>)
      requires position <= |tokens|
      modifies this`position
      ensures (term, position) == TermAt(tokens, old(position))
    {
      if position >= |tokens| {
        return None;
      }
      term := ParseApplication();
    }

    /** `parseApplication`. */
    method ParseApplication() returns (term: Option<Term>)
      requires position <= |tokens|
      modifies this`position
      ensures (term, position) == ApplicationAt(tokens, old(position))
      decreases |tokens| - position, 2
    {
      var left := ParseAtom();
      if left.None? {
        return None;
      }
      var args: seq<Term> := [];
      ghost var toks, start := tokens, position;
      ghost var whole := ArgumentsAt(toks, start);
      assert whole.0 == [] + whole.0;
      while position < |tokens| && tokens[position] != ")"
        invariant tokens == toks && start <= position <= |toks|
        invariant whole.1 == ArgumentsAt(toks, position).1
        invariant whole.0 == args + ArgumentsAt(toks, position).0
        decreases |tokens| - position
      {
        ghost var before, prev := position, args;
        var arg := ParseAtom();
        ArgumentsUnfold(toks, before);
        if arg.None? {
          assert ArgumentsAt(toks, position) == ([], position);
          break;
        }
        args := args + [arg.value];
        ConcatStep(whole.0, prev, [arg.value], ArgumentsAt(toks, position).0, args);
      }
      assert args + [] == args;
      if |args| > 0 {
        return Some(App(left.value, args));
      }
      term := left;
    }

    /** `parseAtom`. */
    method ParseAtom() returns (term: Option<Term>)
      requires position <= |tokens|
      modifies this`position
      ensures (term, position) == AtomAt(tokens, old(position))
      decreases |tokens| - position, 0
    {
      if position >= |tokens| {
        return None;
      }
      var token := tokens[position];
      if token == "(" {
        position := position + 1;
        term := ParseApplication();
        if position < |tokens| && tokens[position] == ")" {
          position := position + 1;
        }
        return;
      }
      position := position + 1;
      term := Some(if IsNumeric(token) then Lit(token) else Var(token));
    }
  }
}
