/**
 * The per-line tokenizer of the pseudo-code parser: pad `(`, `)` and `=` with
 * spaces, split on runs of white space and drop empty pieces.
 */
module Tokenizer {
  import opened Text

  /** The characters the tokenizer always emits as tokens of their own. */
  predicate IsDelimiter(c: char)
  {
    c == '(' || c == ')' || c == '='
  }

  /** The three replace calls: every delimiter becomes " c ". */
  function Pad(s: string): (r: string)
  {
    if s == [] then []
    else (if IsDelimiter(s[0]) then [' ', s[0], ' '] else [s[0]]) + Pad(s[1..])
  }

  /** `[cur]` unless `cur` is empty: the filter on non-empty pieces. */
  function Flush(cur: string): (r: seq<string>)
  {
    if cur == [] then [] else [cur]
  }

  /** `s.split(/\s+/).filter(t => t.length > 0)`, with `cur` the piece being read. */
  function WordsFrom(s: string, cur: string): seq<string>
    decreases |s|
  {
    if s == [] then Flush(cur)
    else if IsSpace(s[0]) then Flush(cur) + WordsFrom(s[1..], [])
    else WordsFrom(s[1..], cur + [s[0]])
  }

  /**
   * The tokens of one line, as the source computes them. Every token is
   * non-empty and free of white space, `(`, `)` and `=` only ever appear as
   * tokens of their own, and the tokens spell the line without its white space.
   */
  function Tokenize(line: string): (r: seq<string>)
    ensures AllTokens(r)
    ensures Concat(r) == RemoveSpaces(line)
  {
    WordsFromPadIsScan(line, []);
    ScanFromTokens(line, []);
    ScanFromConcat(line, []);
    WordsFrom(Pad(line), [])
  }

  /**
   * A one-pass reading of the same tokenizer: white space ends a token, a
   * delimiter ends a token and is a token, anything else extends the token.
   */
  function ScanFrom(s: string, cur: string): seq<string>
    decreases |s|
  {
    if s == [] then Flush(cur)
    else if IsSpace(s[0]) then Flush(cur) + ScanFrom(s[1..], [])
    else if IsDelimiter(s[0]) then Flush(cur) + [[s[0]]] + ScanFrom(s[1..], [])
    else ScanFrom(s[1..], cur + [s[0]])
  }

  /** `WordsFrom` reads one character. */
  lemma WordsFromLead(c: char, rest: string, cur: string)
    ensures WordsFrom([c] + rest, cur) ==
            if IsSpace(c) then Flush(cur) + WordsFrom(rest, []) else WordsFrom(rest, cur + [c])
  {
    assert ([c] + rest)[1..] == rest;
  }

  /** A padded delimiter ends the piece before it and is a piece of its own. */
  lemma WordsFromPadded(c: char, rest: string, cur: string)
    requires IsDelimiter(c)
    ensures WordsFrom([' ', c, ' '] + rest, cur) == Flush(cur) + [[c]] + WordsFrom(rest, [])
  {
    assert [' ', c, ' '] + rest == [' '] + ([c] + ([' '] + rest));
    WordsFromLead(' ', [c] + ([' '] + rest), cur);
    WordsFromLead(c, [' '] + rest, []);
    WordsFromLead(' ', rest, [] + [c]);
    assert [] + [c] == [c];
  }

  lemma {:induction false} WordsFromPadIsScan(s: string, cur: string)
    ensures WordsFrom(Pad(s), cur) == ScanFrom(s, cur)
    decreases |s|
  {
    if s != [] {
      if IsDelimiter(s[0]) {
        WordsFromPadIsScan(s[1..], []);
        WordsFromPadded(s[0], Pad(s[1..]), cur);
      } else if IsSpace(s[0]) {
        WordsFromPadIsScan(s[1..], []);
        WordsFromLead(s[0], Pad(s[1..]), cur);
      } else {
        WordsFromPadIsScan(s[1..], cur + [s[0]]);
        WordsFromLead(s[0], Pad(s[1..]), cur);
      }
    }
  }

  /** The tokenizer and the one-pass scan agree on every line. */
  lemma TokenizeIsScan(line: string)
    ensures Tokenize(line) == ScanFrom(line, [])
  {
    WordsFromPadIsScan(line, []);
  }

  /** A token as the tokenizer emits it: non-empty, no white space, and a lone delimiter or free of delimiters. */
  predicate IsToken(t: string)
  {
    && t != []
    && NoSpace(t)
    && (|t| == 1 || forall i :: 0 <= i < |t| ==> !IsDelimiter(t[i]))
  }

  /** A token with no delimiter in it. */
  predicate IsWord(t: string)
  {
    forall i :: 0 <= i < |t| ==> !IsSpace(t[i]) && !IsDelimiter(t[i])
  }

  /** The characters of `s` other than white space. */
  function RemoveSpaces(s: string): string
  {
    if s == [] then [] else (if IsSpace(s[0]) then [] else [s[0]]) + RemoveSpaces(s[1..])
  }

  /** The concatenation of the tokens. */
  function Concat(ts: seq<string>): string
  {
    if ts == [] then [] else ts[0] + Concat(ts[1..])
  }

  lemma ConcatAppend(a: seq<string>, b: seq<string>)
    ensures Concat(a + b) == Concat(a) + Concat(b)
  {
    if a != [] {
      assert (a + b)[1..] == a[1..] + b;
      ConcatAppend(a[1..], b);
    } else {
      assert a + b == b;
    }
  }

  predicate AllTokens(ts: seq<string>)
  {
    forall k :: 0 <= k < |ts| ==> IsToken(ts[k])
  }

  lemma {:induction false} ScanFromTokens(s: string, cur: string)
    requires IsWord(cur)
    ensures AllTokens(ScanFrom(s, cur))
    decreases |s|
  {
    if s == [] {
    } else if IsSpace(s[0]) {
      ScanFromTokens(s[1..], []);
    } else if IsDelimiter(s[0]) {
      ScanFromTokens(s[1..], []);
      assert IsToken([s[0]]);
      assert AllTokens(Flush(cur) + [[s[0]]]);
    } else {
      ScanFromTokens(s[1..], cur + [s[0]]);
    }
  }

  lemma ConcatFlush(cur: string)
    ensures Concat(Flush(cur)) == cur
  {
    if cur != [] {
      assert Concat([cur]) == cur + Concat([]);
    }
  }

  lemma {:induction false} ScanFromConcat(s: string, cur: string)
    ensures Concat(ScanFrom(s, cur)) == cur + RemoveSpaces(s)
    decreases |s|
  {
    if s == [] {
      ConcatFlush(cur);
      assert cur + RemoveSpaces(s) == cur;
    } else if IsSpace(s[0]) {
      ScanFromConcat(s[1..], []);
      ConcatAppend(Flush(cur), ScanFrom(s[1..], []));
      ConcatFlush(cur);
      assert RemoveSpaces(s) == [] + RemoveSpaces(s[1..]) == RemoveSpaces(s[1..]);
    } else if IsDelimiter(s[0]) {
      ScanFromConcat(s[1..], []);
      ConcatAppend(Flush(cur) + [[s[0]]], ScanFrom(s[1..], []));
      ConcatAppend(Flush(cur), [[s[0]]]);
      ConcatFlush(cur);
      ConcatFlush([s[0]]);
      assert RemoveSpaces(s) == [s[0]] + RemoveSpaces(s[1..]);
    } else {
      ScanFromConcat(s[1..], cur + [s[0]]);
      assert RemoveSpaces(s) == [s[0]] + RemoveSpaces(s[1..]);
    }
  }

  lemma {:induction false} ScanWord(w: string, tail: string, cur: string)
    requires IsWord(w)
    ensures ScanFrom(w + tail, cur) == ScanFrom(tail, cur + w)
    decreases |w|
  {
    if w == [] {
      assert w + tail == tail;
      assert cur + w == cur;
    } else {
      assert (w + tail)[0] == w[0];
      assert (w + tail)[1..] == w[1..] + tail;
      ScanWord(w[1..], tail, cur + [w[0]]);
      assert cur + [w[0]] + w[1..] == cur + w;
    }
  }

  /** One token followed by white space or the end of the line scans to that token first. */
  lemma ScanToken(t: string, tail: string)
    requires IsToken(t)
    requires tail == [] || IsSpace(tail[0])
    ensures ScanFrom(t + tail, []) == [t] + ScanFrom(tail, [])
  {
    if |t| == 1 && IsDelimiter(t[0]) {
      assert (t + tail)[0] == t[0];
      assert (t + tail)[1..] == tail;
      assert [t[0]] == t;
    } else {
      assert IsWord(t);
      ScanWord(t, tail, []);
      assert [] + t == t;
      if tail != [] {
        assert ScanFrom(tail, []) == ScanFrom(tail[1..], []);
      }
    }
  }

  /** Tokens joined with single spaces tokenize back to the same tokens. */
  lemma {:induction false} TokenizeJoin(ts: seq<string>)
    requires AllTokens(ts)
    ensures Tokenize(Join(ts, " ")) == ts
    decreases |ts|
  {
    TokenizeIsScan(Join(ts, " "));
    ScanJoin(ts);
  }

  lemma {:induction false} ScanJoin(ts: seq<string>)
    requires AllTokens(ts)
    ensures ScanFrom(Join(ts, " "), []) == ts
    decreases |ts|
  {
    if |ts| == 1 {
      ScanToken(ts[0], []);
      assert ts[0] + [] == ts[0];
    } else if |ts| > 1 {
      var rest := Join(ts[1..], " ");
      assert Join(ts, " ") == ts[0] + (" " + rest);
      ScanToken(ts[0], " " + rest);
      assert (" " + rest)[1..] == rest;
      ScanJoin(ts[1..]);
    }
  }
}
