/** Python's `reversed` on sequences. */
module Sequences {
  /** `reversed(s)`, collected: the elements of `s` from last to first. */
  function Reversed<T>(s: seq<T>): (r: seq<T>)
    ensures |r| == |s|
    ensures forall k :: 0 <= k < |s| ==> r[k] == s[|s| - 1 - k]
  {
    if s == [] then [] else [s[|s| - 1]] + Reversed(s[..|s| - 1])
  }

  /** Reversing after appending puts the new element first. */
  lemma ReversedAppend<T>(s: seq<T>, x: T)
    ensures Reversed(s + [x]) == [x] + Reversed(s)
  {
    var r, r' := Reversed(s + [x]), [x] + Reversed(s);
    assert forall k :: 0 <= k < |r| ==> r[k] == r'[k];
  }
}
