/**
 * The random option selector: a list of options the user adds to and
 * removes from, and a button that picks one of them at random.
 * `Math.random()` is the parameter `r` with `0 <= r < 1`.
 */
module RandStuff {
  import opened Wrappers
  import opened Text
  import opened Seqs

  datatype Selector = Selector(options: seq<string>, newOption: string, selectedOption: Option<string>)

  /** `addOption`: a non-blank input goes last, trimmed, and the input is cleared; a blank one does nothing. */
  function AddOption(s: Selector): (r: Selector)
    ensures Trim(s.newOption) == [] ==> r == s
    ensures Trim(s.newOption) != [] ==>
              r.options == s.options + [Trim(s.newOption)] && r.newOption == [] && r.selectedOption == s.selectedOption
  {
    if Trim(s.newOption) != [] then s.(options := s.options + [Trim(s.newOption)], newOption := []) else s
  }

  /** `removeOption`: exactly the option at `index` goes, the rest keep their order. */
  function RemoveOption(s: Selector, index: int): (r: Selector)
    ensures 0 <= index < |s.options| ==> r.options == s.options[..index] + s.options[index + 1..]
    ensures 0 <= index < |s.options| ==> |r.options| == |s.options| - 1
    ensures !(0 <= index < |s.options|) ==> r.options == s.options
    ensures r.newOption == s.newOption && r.selectedOption == s.selectedOption
  {
    s.(options := RemoveIndex(s.options, index))
  }

  /** `Math.floor(r * n)`: an index into a list of `n` options. */
  function RandomIndex(n: nat, r: real): (k: int)
    requires n > 0 && 0.0 <= r < 1.0
    ensures 0 <= k < n
  {
    var x := r * n as real;
    assert 0.0 <= x < n as real;
    assert x.Floor as real <= x;
    x.Floor
  }

  /** Every index can be drawn: `r = k / n` draws `k`. */
  lemma EveryIndexDrawable(n: nat, k: nat)
    requires k < n
    ensures exists r: real :: 0.0 <= r < 1.0 && RandomIndex(n, r) == k
  {
    var r := k as real / n as real;
    assert r * n as real == k as real;
    assert RandomIndex(n, r) == k;
  }

  /** `selectRandomOption`: with no options nothing happens; otherwise the drawn option is selected. */
  function SelectRandomOption(s: Selector, r: real): (res: Selector)
    requires 0.0 <= r < 1.0
    ensures s.options == [] ==> res == s
    ensures s.options != [] ==> res.selectedOption.Some? && res.selectedOption.value in s.options
    ensures s.options != [] ==> res.selectedOption == Some(s.options[RandomIndex(|s.options|, r)])
    ensures res.options == s.options && res.newOption == s.newOption
  {
    if |s.options| > 0 then s.(selectedOption := Some(s.options[RandomIndex(|s.options|, r)])) else s
  }

  /** Adding an option and removing the last one gives back the list. */
  lemma AddThenRemove(s: Selector)
    requires Trim(s.newOption) != []
    ensures RemoveOption(AddOption(s), |s.options|).options == s.options
  {
    var added := AddOption(s).options;
    assert added[..|s.options|] == s.options;
  }
}
