/**
 * The array operations the pages build their new state with: `filter` by a
 * predicate, `filter` by position, `map` at one position, and `reverse`.
 */
module Seqs {

  /** `xs.map(f)`. */
  function MapAll<A, B>(f: A -> B, xs: seq<A>): (r: seq<B>)
    ensures |r| == |xs|
    ensures forall i :: 0 <= i < |r| ==> r[i] == f(xs[i])
  {
    if xs == [] then [] else [f(xs[0])] + MapAll(f, xs[1..])
  }

  /** Mapping `f` gives `ys` when it gives each element of `ys` at its position. */
  lemma MapAllEqual<A, B>(f: A -> B, xs: seq<A>, ys: seq<B>)
    requires |xs| == |ys| && forall k :: 0 <= k < |xs| ==> f(xs[k]) == ys[k]
    ensures MapAll(f, xs) == ys
  {
    var r := MapAll(f, xs);
    assert forall k :: 0 <= k < |r| ==> r[k] == ys[k];
  }

  /** `s.filter(p)`: the elements satisfying `p`, in their original order. */
  function Filter<T>(s: seq<T>, p: T -> bool): (r: seq<T>)
    ensures |r| <= |s|
    ensures forall i :: 0 <= i < |r| ==> r[i] in s && p(r[i])
    ensures forall i :: 0 <= i < |s| && p(s[i]) ==> s[i] in r
  {
    if s == [] then [] else (if p(s[0]) then [s[0]] else []) + Filter(s[1..], p)
  }

  /** Filtering a concatenation filters each part: the kept elements keep their relative order. */
  lemma {:induction false} FilterAppend<T>(a: seq<T>, b: seq<T>, p: T -> bool)
    ensures Filter(a + b, p) == Filter(a, p) + Filter(b, p)
    decreases |a|
  {
    if a != [] {
      assert (a + b)[0] == a[0];
      assert (a + b)[1..] == a[1..] + b;
      FilterAppend(a[1..], b, p);
    } else {
      assert a + b == b;
    }
  }

  /** A filter that every element passes changes nothing. */
  lemma {:induction false} FilterAll<T>(s: seq<T>, p: T -> bool)
    requires forall i :: 0 <= i < |s| ==> p(s[i])
    ensures Filter(s, p) == s
    decreases |s|
  {
    if s != [] {
      FilterAll(s[1..], p);
    }
  }

  /**
   * `s.filter((_, i) => i !== index)`: every element whose position differs
   * from `index`; an index outside the list removes nothing.
   */
  function RemoveIndex<T>(s: seq<T>, index: int): (r: seq<T>)
    ensures 0 <= index < |s| ==> r == s[..index] + s[index + 1..]
    ensures !(0 <= index < |s|) ==> r == s
  {
    if s == [] then []
    else
      var rest := RemoveIndex(s[1..], index - 1);
      if index == 0 then rest else [s[0]] + rest
  }

  /** `s.map((x, i) => i === index ? f(x) : x)`: only the element at `index` changes, if there is one. */
  function UpdateAt<T>(s: seq<T>, index: int, f: T -> T): (r: seq<T>)
    ensures 0 <= index < |s| ==> r == s[index := f(s[index])]
    ensures !(0 <= index < |s|) ==> r == s
  {
    if s == [] then []
    else [if index == 0 then f(s[0]) else s[0]] + UpdateAt(s[1..], index - 1, f)
  }

  /** `s.slice().reverse()`. */
  function Reverse<T>(s: seq<T>): (r: seq<T>)
    ensures |r| == |s|
    ensures forall i :: 0 <= i < |s| ==> r[i] == s[|s| - 1 - i]
  {
    if s == [] then [] else Reverse(s[1..]) + [s[0]]
  }

  /** A filter that drops exactly the element at `k` removes that position. */
  lemma {:induction false} FilterDropsOne<T>(s: seq<T>, k: nat, p: T -> bool)
    requires k < |s| && !p(s[k])
    requires forall i :: 0 <= i < |s| && i != k ==> p(s[i])
    ensures Filter(s, p) == s[..k] + s[k + 1..]
    decreases k
  {
    var tail := s[1..];
    if k == 0 {
      forall i | 0 <= i < |tail|
        ensures p(tail[i])
      {
        assert tail[i] == s[i + 1];
      }
      FilterAll(tail, p);
    } else {
      forall i | 0 <= i < |tail| && i != k - 1
        ensures p(tail[i])
      {
        assert tail[i] == s[i + 1];
      }
      FilterDropsOne(tail, k - 1, p);
      assert [s[0]] + (tail[..k - 1] + tail[k..]) == s[..k] + s[k + 1..];
    }
  }
}
