/**
 * The dictionaries of open sections and expanded cells: a key is on when it
 * maps to `true`; a missing key reads as `undefined`, which counts as off.
 */
module Flags {

  predicate IsOn(m: map<string, bool>, key: string)
  {
    key in m && m[key]
  }

  /** `{...prev, [key]: !prev[key]}`: flip one key, which an absent key turns on. */
  function Flip(m: map<string, bool>, key: string): (r: map<string, bool>)
    ensures r.Keys == m.Keys + {key}
    ensures IsOn(r, key) <==> !IsOn(m, key)
    ensures forall k :: k in m && k != key ==> r[k] == m[k]
  {
    m[key := !(key in m && m[key])]
  }

  /** Flipping a key twice leaves every key on or off as it was. */
  lemma FlipTwice(m: map<string, bool>, key: string, k: string)
    ensures IsOn(Flip(Flip(m, key), key), k) <==> IsOn(m, k)
  {
  }
}
