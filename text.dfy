/**
 * String helpers with the semantics of the JavaScript built-ins the pages use:
 * `trim`, `split` with a string separator, `join`, `toLowerCase`, `includes`,
 * `padStart` and the decimal rendering of a non-negative integer.
 */
module Text {
  import opened Seqs

  /** The characters matched by `\s` and removed by `trim` (ECMAScript WhiteSpace and LineTerminator). */
  predicate IsSpace(c: char)
  {
    c == ' ' || ('\t' <= c <= '\r') || c == '\U{00A0}' || c == '\U{1680}' || ('\U{2000}' <= c <= '\U{200A}')
    || ('\U{2028}' <= c <= '\U{2029}') || c == '\U{202F}' || c == '\U{205F}' || c == '\U{3000}' || c == '\U{FEFF}'
  }

  predicate AllSpace(s: string)
  {
    forall i :: 0 <= i < |s| ==> IsSpace(s[i])
  }

  predicate NoSpace(s: string)
  {
    forall i :: 0 <= i < |s| ==> !IsSpace(s[i])
  }

  /** `s.trimStart()`: the suffix left after dropping leading white space. */
  function TrimStart(s: string): (r: string)
    ensures |r| <= |s| && r == s[|s| - |r|..]
    ensures r == [] || !IsSpace(r[0])
  {
    if s != [] && IsSpace(s[0]) then TrimStart(s[1..]) else s
  }

  /** `s.trimEnd()`: the prefix left after dropping trailing white space. */
  function TrimEnd(s: string): (r: string)
    ensures |r| <= |s| && r == s[..|r|]
    ensures r == [] || !IsSpace(r[|r| - 1])
  {
    if s != [] && IsSpace(s[|s| - 1]) then TrimEnd(s[..|s| - 1]) else s
  }

  /** `s.trim()`. */
  function Trim(s: string): string
  {
    TrimEnd(TrimStart(s))
  }

  /** A string with no white space at either end. */
  predicate IsTrimmed(s: string)
  {
    s == [] || (!IsSpace(s[0]) && !IsSpace(s[|s| - 1]))
  }

  /**
   * `trim` removes white space from both ends and nothing else: the result is a
   * slice of the input, everything cut off is white space, and the result has
   * no white space at either end.
   */
  lemma TrimSpec(s: string)
    ensures exists i, j :: 0 <= i <= j <= |s| && Trim(s) == s[i..j]
                           && AllSpace(s[..i]) && AllSpace(s[j..])
    ensures IsTrimmed(Trim(s))
  {
    var i, j := TrimBounds(s);
    TrimIsTrimmed(s);
  }

  /** Where `trim` cuts: the result is `s[i..j]`, with white space before `i` and from `j`. */
  lemma TrimBounds(s: string) returns (i: nat, j: nat)
    ensures i <= j <= |s| && Trim(s) == s[i..j] && AllSpace(s[..i]) && AllSpace(s[j..])
  {
    var t := TrimStart(s);
    var r := TrimEnd(t);
    TrimStartCuts(s);
    TrimEndCuts(t);
    i, j := |s| - |t|, |s| - |t| + |r|;
    assert t == s[i..];
    assert r == t[..|r|] == s[i..j];
    assert s[j..] == t[|r|..];
  }

  /** `trimStart` drops only white space. */
  lemma {:induction false} TrimStartCuts(s: string)
    ensures AllSpace(s[..|s| - |TrimStart(s)|])
    decreases |s|
  {
    if s != [] && IsSpace(s[0]) {
      var n := |s| - |TrimStart(s)|;
      TrimStartCuts(s[1..]);
      var u := s[1..][..n - 1];
      forall i | 0 <= i < n
        ensures IsSpace(s[..n][i])
      {
        if i > 0 {
          assert s[..n][i] == u[i - 1];
        }
      }
    }
  }

  /** `trimEnd` drops only white space. */
  lemma {:induction false} TrimEndCuts(s: string)
    ensures AllSpace(s[|TrimEnd(s)|..])
    decreases |s|
  {
    if s != [] && IsSpace(s[|s| - 1]) {
      var u := s[..|s| - 1];
      TrimEndCuts(u);
      assert s[|TrimEnd(s)|..] == u[|TrimEnd(u)|..] + [s[|s| - 1]];
    }
  }

  lemma TrimIsTrimmed(s: string)
    ensures IsTrimmed(Trim(s))
  {
    var t := TrimStart(s);
    var r := TrimEnd(t);
    if r != [] {
      assert r[0] == t[0];
    }
  }

  /** Trimming a trimmed string changes nothing, so `trim` is idempotent. */
  lemma TrimTrimmed(s: string)
    requires IsTrimmed(s)
    ensures Trim(s) == s
  {
  }

  lemma TrimIdempotent(s: string)
    ensures Trim(Trim(s)) == Trim(s)
  {
    TrimIsTrimmed(s);
    TrimTrimmed(Trim(s));
  }

  /** A string made only of white space trims to the empty string. */
  lemma TrimAllSpace(s: string)
    requires AllSpace(s)
    ensures Trim(s) == []
  {
    if s != [] {
      TrimAllSpace(s[1..]);
    }
  }

  /** `s` starts with `p`. */
  predicate IsPrefix(p: string, s: string)
  {
    |p| <= |s| && s[..|p|] == p
  }

  /** `s.includes(sub)`. */
  predicate Contains(s: string, sub: string)
    decreases |s|
  {
    IsPrefix(sub, s) || (s != [] && Contains(s[1..], sub))
  }

  /** `sub` occurs in `s` starting at index `i`. */
  predicate OccursAt(s: string, sub: string, i: int)
  {
    0 <= i <= |s| - |sub| && s[i..i + |sub|] == sub
  }

  /** `includes` finds exactly the slices of `s` that equal `sub`. */
  lemma {:induction false} ContainsSpec(s: string, sub: string)
    ensures Contains(s, sub) <==> exists i :: OccursAt(s, sub, i)
    decreases |s|
  {
    if IsPrefix(sub, s) {
      assert OccursAt(s, sub, 0);
    } else if s == [] {
    } else {
      ContainsSpec(s[1..], sub);
      if Contains(s, sub) {
        var i :| OccursAt(s[1..], sub, i);
        assert s[i + 1..i + 1 + |sub|] == s[1..][i..i + |sub|];
        assert OccursAt(s, sub, i + 1);
      }
      if exists i :: OccursAt(s, sub, i) {
        var i :| OccursAt(s, sub, i);
        assert i != 0;
        assert s[1..][i - 1..i - 1 + |sub|] == s[i..i + |sub|];
        assert OccursAt(s[1..], sub, i - 1);
      }
    }
  }

  /** ASCII `toLowerCase` of one character. */
  function LowerChar(c: char): char
  {
    if 'A' <= c <= 'Z' then (c as int + 32) as char else c
  }

  /** `s.toLowerCase()`, for ASCII letters. */
  function ToLower(s: string): (r: string)
    ensures |r| == |s|
    ensures forall i :: 0 <= i < |s| ==> r[i] == LowerChar(s[i])
  {
    if s == [] then [] else [LowerChar(s[0])] + ToLower(s[1..])
  }

  /** `hay.toLowerCase().includes(needle.toLowerCase())`: case-insensitive substring test. */
  predicate ContainsIgnoreCase(hay: string, needle: string)
  {
    Contains(ToLower(hay), ToLower(needle))
  }

  /** JavaScript `s.split(sep)` for a non-empty separator, scanning from the left; `cur` is the piece being read. */
  function SplitFrom(s: string, sep: string, cur: string): (r: seq<string>)
    requires |sep| > 0
    ensures |r| >= 1
    decreases |s|
  {
    if IsPrefix(sep, s) then [cur] + SplitFrom(s[|sep|..], sep, [])
    else if s == [] then [cur]
    else SplitFrom(s[1..], sep, cur + [s[0]])
  }

  function Split(s: string, sep: string): (r: seq<string>)
    requires |sep| > 0
    ensures |r| >= 1
  {
    SplitFrom(s, sep, [])
  }

  /** `parts.join(sep)`. */
  function Join(parts: seq<string>, sep: string): string
  {
    if parts == [] then []
    else if |parts| == 1 then parts[0]
    else parts[0] + sep + Join(parts[1..], sep)
  }

  /** A joined string begins with its first part and ends with its last one. */
  lemma {:induction false} JoinEnds(parts: seq<string>, sep: string)
    requires parts != []
    requires forall k :: 0 <= k < |parts| ==> parts[k] != []
    ensures |Join(parts, sep)| > 0
    ensures Join(parts, sep)[0] == parts[0][0]
    ensures Join(parts, sep)[|Join(parts, sep)| - 1] == parts[|parts| - 1][|parts[|parts| - 1]| - 1]
    decreases |parts|
  {
    if |parts| > 1 {
      JoinEnds(parts[1..], sep);
      var rest := Join(parts[1..], sep);
      assert Join(parts, sep) == (parts[0] + sep) + rest;
    }
  }

  /** Joining two non-empty lists of parts is joining each and putting the separator between. */
  lemma {:induction false} JoinAppend(a: seq<string>, b: seq<string>, sep: string)
    requires a != [] && b != []
    ensures Join(a + b, sep) == Join(a, sep) + sep + Join(b, sep)
    decreases |a|
  {
    if |a| == 1 {
      assert (a + b)[1..] == b;
    } else {
      JoinAppend(a[1..], b, sep);
      assert (a + b)[1..] == a[1..] + b;
    }
  }

  /** A character in neither the separator nor any part is not in the joined string. */
  lemma {:induction false} JoinAvoids(parts: seq<string>, sep: string, c: char)
    requires c !in sep
    requires forall k :: 0 <= k < |parts| ==> c !in parts[k]
    ensures c !in Join(parts, sep)
    decreases |parts|
  {
    if |parts| > 1 {
      JoinAvoids(parts[1..], sep, c);
    }
  }

  lemma {:induction false} JoinSplitFrom(s: string, sep: string, cur: string)
    requires |sep| > 0
    ensures Join(SplitFrom(s, sep, cur), sep) == cur + s
    decreases |s|
  {
    if IsPrefix(sep, s) {
      var rest := s[|sep|..];
      var pieces := SplitFrom(rest, sep, []);
      JoinSplitFrom(rest, sep, []);
      assert ([cur] + pieces)[0] == cur && ([cur] + pieces)[1..] == pieces;
      assert Join([cur] + pieces, sep) == cur + sep + rest;
      assert sep + rest == s;
      assert cur + sep + rest == cur + (sep + rest);
    } else if s == [] {
    } else {
      JoinSplitFrom(s[1..], sep, cur + [s[0]]);
      assert [s[0]] + s[1..] == s;
      assert cur + [s[0]] + s[1..] == cur + ([s[0]] + s[1..]);
    }
  }

  /** Splitting loses nothing: joining the pieces with the separator gives back the input. */
  lemma JoinSplit(s: string, sep: string)
    requires |sep| > 0
    ensures Join(Split(s, sep), sep) == s
  {
    JoinSplitFrom(s, sep, []);
  }

  lemma {:induction false} SplitFromPlain(p: string, rest: string, sep: string, cur: string)
    requires |sep| > 0 && sep[0] !in p
    ensures SplitFrom(p + rest, sep, cur) == SplitFrom(rest, sep, cur + p)
    decreases |p|
  {
    if p != [] {
      assert (p + rest)[0] == p[0];
      assert !IsPrefix(sep, p + rest);
      assert (p + rest)[1..] == p[1..] + rest;
      SplitFromPlain(p[1..], rest, sep, cur + [p[0]]);
      assert cur + [p[0]] + p[1..] == cur + p;
    } else {
      assert p + rest == rest;
      assert cur + p == cur;
    }
  }

  /**
   * Splitting undoes a join whose parts do not contain the first character of
   * the separator.
   */
  lemma {:induction false} SplitJoin(parts: seq<string>, sep: string)
    requires |parts| >= 1 && |sep| > 0
    requires forall k :: 0 <= k < |parts| ==> sep[0] !in parts[k]
    ensures Split(Join(parts, sep), sep) == parts
    decreases |parts|
  {
    if |parts| == 1 {
      SplitFromPlain(parts[0], [], sep, []);
      assert parts[0] + [] == parts[0];
      var empty: string := [];
      assert !IsPrefix(sep, empty);
      assert SplitFrom(empty, sep, parts[0]) == [parts[0]];
      assert parts[0] + empty == parts[0] && empty + parts[0] == parts[0];
    } else {
      var rest := Join(parts[1..], sep);
      assert Join(parts, sep) == parts[0] + (sep + rest);
      SplitFromPlain(parts[0], sep + rest, sep, []);
      assert IsPrefix(sep, sep + rest);
      assert (sep + rest)[|sep|..] == rest;
      assert [] + parts[0] == parts[0];
      SplitJoin(parts[1..], sep);
    }
  }

  /** A string without the separator's first character is one piece. */
  lemma SplitOne(a: string, sep: string)
    requires |sep| > 0 && sep[0] !in a
    ensures Split(a, sep) == [a]
  {
    SplitJoin([a], sep);
  }

  /** Two pieces around one separator. */
  lemma SplitTwo(a: string, b: string, sep: string)
    requires |sep| > 0 && sep[0] !in a && sep[0] !in b
    ensures Split(a + sep + b, sep) == [a, b]
  {
    assert Join([a, b], sep) == a + sep + b;
    SplitJoin([a, b], sep);
  }

  predicate IsDigit(c: char)
  {
    '0' <= c <= '9'
  }

  function DigitChar(d: nat): (c: char)
    requires d < 10
    ensures IsDigit(c)
  {
    ('0' as int + d) as char
  }

  /** The decimal rendering `String(n)` of a non-negative integer. */
  function NatToString(n: nat): (r: string)
    ensures |r| >= 1
    ensures forall i :: 0 <= i < |r| ==> IsDigit(r[i])
    decreases n
  {
    if n < 10 then [DigitChar(n)] else NatToString(n / 10) + [DigitChar(n % 10)]
  }

  /** The value of a string of decimal digits. */
  function DigitsValue(s: string): nat
    requires forall i :: 0 <= i < |s| ==> IsDigit(s[i])
  {
    if s == [] then 0
    else
      assert IsDigit(s[|s| - 1]);
      DigitsValue(s[..|s| - 1]) * 10 + (s[|s| - 1] as int - '0' as int)
  }

  /** Reading back the decimal rendering gives the number. */
  lemma {:induction false} NatToStringValue(n: nat)
    ensures DigitsValue(NatToString(n)) == n
    decreases n
  {
    if n >= 10 {
      NatToStringValue(n / 10);
      var s := NatToString(n);
      assert s[..|s| - 1] == NatToString(n / 10);
    }
  }

  /** Different numbers render differently. */
  lemma NatToStringInjective(m: nat, n: nat)
    requires NatToString(m) == NatToString(n)
    ensures m == n
  {
    NatToStringValue(m);
    NatToStringValue(n);
  }

  /** `s.padStart(width, pad)`. */
  function PadStart(s: string, width: nat, pad: char): (r: string)
    ensures |r| == if |s| >= width then |s| else width
    ensures r[|r| - |s|..] == s
    ensures forall i :: 0 <= i < |r| - |s| ==> r[i] == pad
    decreases width - |s|
  {
    if |s| >= width then s else PadStart([pad] + s, width, pad)
  }

  /** A leading zero does not change a digit string's value. */
  lemma {:induction false} LeadingZeroValue(s: string)
    requires forall i :: 0 <= i < |s| ==> IsDigit(s[i])
    ensures DigitsValue(['0'] + s) == DigitsValue(s)
    decreases |s|
  {
    if s != [] {
      var t := ['0'] + s;
      assert t[..|t| - 1] == ['0'] + s[..|s| - 1];
      LeadingZeroValue(s[..|s| - 1]);
    }
  }

  /** `padStart` with zeros keeps a digit string a digit string of the same value. */
  lemma {:induction false} ZeroPadValue(s: string, width: nat)
    requires forall i :: 0 <= i < |s| ==> IsDigit(s[i])
    ensures forall i :: 0 <= i < |PadStart(s, width, '0')| ==> IsDigit(PadStart(s, width, '0')[i])
    ensures DigitsValue(PadStart(s, width, '0')) == DigitsValue(s)
    decreases width - |s|
  {
    if |s| < width {
      LeadingZeroValue(s);
      ZeroPadValue(['0'] + s, width);
    }
  }

  /** `pieces.map(s => s.trim())`. */
  function TrimAll(pieces: seq<string>): (r: seq<string>)
    ensures |r| == |pieces|
    ensures forall i :: 0 <= i < |r| ==> r[i] == Trim(pieces[i])
  {
    MapAll(Trim, pieces)
  }

  /** `pieces.filter(Boolean)` on strings: the non-empty ones, in order. */
  function NonEmpty(pieces: seq<string>): (r: seq<string>)
    ensures |r| <= |pieces|
    ensures forall i :: 0 <= i < |r| ==> r[i] != [] && r[i] in pieces
  {
    if pieces == [] then []
    else (if pieces[0] == [] then [] else [pieces[0]]) + NonEmpty(pieces[1..])
  }

  /** `text.split(sep).map(s => s.trim()).filter(s => s.length > 0)`: a separated list of items. */
  function ItemList(text: string, sep: string): seq<string>
    requires |sep| > 0
  {
    NonEmpty(TrimAll(Split(text, sep)))
  }

  /** Every item of a separated list is non-empty and has no white space at either end. */
  lemma ItemListTrimmed(text: string, sep: string)
    requires |sep| > 0
    ensures forall i :: 0 <= i < |ItemList(text, sep)| ==> ItemList(text, sep)[i] != [] && IsTrimmed(ItemList(text, sep)[i])
  {
    var pieces := Split(text, sep);
    forall i | 0 <= i < |ItemList(text, sep)|
      ensures IsTrimmed(ItemList(text, sep)[i])
    {
      var j :| 0 <= j < |TrimAll(pieces)| && TrimAll(pieces)[j] == ItemList(text, sep)[i];
      TrimIsTrimmed(pieces[j]);
    }
  }

  lemma {:induction false} TrimAllTrimmed(pieces: seq<string>)
    requires forall k :: 0 <= k < |pieces| ==> IsTrimmed(pieces[k])
    ensures TrimAll(pieces) == pieces
  {
    forall k | 0 <= k < |pieces|
      ensures Trim(pieces[k]) == pieces[k]
    {
      TrimTrimmed(pieces[k]);
    }
  }

  lemma {:induction false} NonEmptyKeeps(pieces: seq<string>)
    requires forall k :: 0 <= k < |pieces| ==> pieces[k] != []
    ensures NonEmpty(pieces) == pieces
    decreases |pieces|
  {
    if pieces != [] {
      NonEmptyKeeps(pieces[1..]);
    }
  }

  /** Items that are non-empty, trimmed and free of the separator survive being joined and read back. */
  lemma ItemListRoundTrip(items: seq<string>, sep: string)
    requires |sep| > 0
    requires forall k :: 0 <= k < |items| ==> items[k] != [] && IsTrimmed(items[k]) && sep[0] !in items[k]
    ensures ItemList(Join(items, sep), sep) == items
  {
    if items == [] {
      SplitOne([], sep);
      assert Trim([]) == [];
    } else {
      SplitJoin(items, sep);
      TrimAllTrimmed(items);
      NonEmptyKeeps(items);
    }
  }

  /** Each item with one space in front. */
  function Indented(xs: seq<string>): (r: seq<string>)
    ensures |r| == |xs|
    ensures forall k :: 0 <= k < |xs| ==> r[k] == " " + xs[k]
  {
    if xs == [] then [] else [" " + xs[0]] + Indented(xs[1..])
  }

  lemma {:induction false} JoinIndented(xs: seq<string>)
    requires xs != []
    ensures " " + Join(xs, ", ") == Join(Indented(xs), ",")
    decreases |xs|
  {
    if |xs| > 1 {
      JoinIndented(xs[1..]);
      assert Indented(xs)[1..] == Indented(xs[1..]);
      assert " " + Join(xs, ", ") == (" " + xs[0]) + "," + (" " + Join(xs[1..], ", "));
    }
  }

  /** One leading space is trimmed away. */
  lemma TrimIndented(x: string)
    requires x != [] && IsTrimmed(x)
    ensures Trim(" " + x) == x
  {
    assert (" " + x)[1..] == x;
    TrimTrimmed(x);
  }

  /** The space of a `", "` can move over to the text after it. */
  lemma CommaSpace(x: string, rest: string, indented: string)
    requires indented == " " + rest
    ensures x + ", " + rest == x + "," + indented
  {
    assert ", " + rest == "," + indented;
  }

  /** A `", "`-join is a `,`-join of the same items, each after the first indented by one space. */
  lemma SpacedJoin(items: seq<string>)
    requires items != []
    ensures Join(items, ", ") == Join([items[0]] + Indented(items[1..]), ",")
  {
    if |items| > 1 {
      var indented := Indented(items[1..]);
      JoinIndented(items[1..]);
      JoinAppend([items[0]], indented, ",");
      assert Join([items[0]], ",") == items[0];
      CommaSpace(items[0], Join(items[1..], ", "), Join(indented, ","));
      assert Join(items, ", ") == items[0] + ", " + Join(items[1..], ", ");
    } else {
      assert [items[0]] + Indented(items[1..]) == [items[0]];
    }
  }

  lemma SpacedPiece(items: seq<string>, pieces: seq<string>, k: nat)
    requires items != [] && pieces == [items[0]] + Indented(items[1..]) && k < |items|
    requires items[k] != [] && IsTrimmed(items[k])
    ensures Trim(pieces[k]) == items[k]
  {
    if k == 0 {
      TrimTrimmed(items[0]);
    } else {
      assert pieces[k] == " " + items[k];
      TrimIndented(items[k]);
    }
  }

  lemma TrimSpacedPieces(items: seq<string>, pieces: seq<string>)
    requires items != [] && pieces == [items[0]] + Indented(items[1..])
    requires forall k :: 0 <= k < |items| ==> items[k] != [] && IsTrimmed(items[k]) && ',' !in items[k]
    ensures forall k :: 0 <= k < |pieces| ==> ',' !in pieces[k]
    ensures TrimAll(pieces) == items
  {
    forall k | 0 <= k < |pieces|
      ensures ',' !in pieces[k]
    {
      if k > 0 {
        assert pieces[k] == " " + items[k];
      }
    }
    forall k | 0 <= k < |pieces|
      ensures Trim(pieces[k]) == items[k]
    {
      SpacedPiece(items, pieces, k);
    }
    MapAllEqual(Trim, pieces, items);
  }

  /**
   * Items joined with `", "` read back as the same list when split on `,`:
   * the space after each comma is trimmed away again.
   */
  lemma ItemListSpacedRoundTrip(items: seq<string>)
    requires forall k :: 0 <= k < |items| ==> items[k] != [] && IsTrimmed(items[k]) && ',' !in items[k]
    ensures ItemList(Join(items, ", "), ",") == items
  {
    if items == [] {
      ItemListRoundTrip(items, ",");
    } else {
      var pieces := [items[0]] + Indented(items[1..]);
      SpacedJoin(items);
      TrimSpacedPieces(items, pieces);
      SplitJoin(pieces, ",");
      NonEmptyKeeps(items);
    }
  }
}
