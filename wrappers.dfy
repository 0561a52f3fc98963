/** The optional value used wherever the source returns `null`/`undefined`. */
module Wrappers {

  datatype Option<+T> = None | Some(value: T)

  /** The values held by an Option, as a sequence of length 0 or 1. */
  function OptionToSeq<T>(o: Option<T>): (r: seq<T>)
    ensures |r| <= 1
    ensures o.None? ==> r == []
    ensures o.Some? ==> r == [o.value]
  {
    if o.Some? then [o.value] else []
  }

  /** `xs.map(f).filter(Boolean)`: the values `f` gives, in order, dropping the missing ones. */
  function FilterMap<A, B>(f: A -> Option<B>, xs: seq<A>): (r: seq<B>)
    ensures |r| <= |xs|
  {
    if xs == [] then [] else OptionToSeq(f(xs[0])) + FilterMap(f, xs[1..])
  }

  /** A property of every value `f` gives holds of every element kept. */
  lemma {:induction false} FilterMapKeeps<A, B>(f: A -> Option<B>, xs: seq<A>, p: B -> bool)
    requires forall k :: 0 <= k < |xs| && f(xs[k]).Some? ==> p(f(xs[k]).value)
    ensures forall i :: 0 <= i < |FilterMap(f, xs)| ==> p(FilterMap(f, xs)[i])
    decreases |xs|
  {
    if xs != [] {
      var h, t := OptionToSeq(f(xs[0])), FilterMap(f, xs[1..]);
      assert forall k :: 0 <= k < |xs[1..]| ==> xs[1..][k] == xs[k + 1];
      FilterMapKeeps(f, xs[1..], p);
      forall i | 0 <= i < |h + t|
        ensures p((h + t)[i])
      {
        if i >= |h| {
          assert (h + t)[i] == t[i - |h|];
        }
      }
    }
  }

  /** When `f` gives a value for every element, nothing is dropped. */
  lemma {:induction false} FilterMapAllPresent<A, B>(f: A -> Option<B>, xs: seq<A>, ys: seq<B>)
    requires |xs| == |ys|
    requires forall k :: 0 <= k < |xs| ==> f(xs[k]) == Some(ys[k])
    ensures FilterMap(f, xs) == ys
    decreases |xs|
  {
    if xs != [] {
      FilterMapAllPresent(f, xs[1..], ys[1..]);
      assert ys == [ys[0]] + ys[1..];
    }
  }
}
