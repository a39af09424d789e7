/**
 * `reversed_enumerate(tokens)`: a generator of `(index, token)` pairs from the
 * last token back to the first, for callers that edit the list as they walk it.
 */
module Enumerate {
  import opened Wrappers
  import opened Tokens
  import opened Sequences

  /** `list(enumerate(tokens))`. */
  function Enumerated(tokens: seq<Token>): (r: seq<(nat, Token)>)
    ensures |r| == |tokens|
    ensures forall i :: 0 <= i < |tokens| ==> r[i] == (i, tokens[i])
  {
    seq(|tokens|, i requires 0 <= i < |tokens| => (i, tokens[i]))
  }

  /** The pairs still to come when `k` tokens remain: indices `k - 1` down to 0. */
  function ReversedPairs(tokens: seq<Token>, k: nat): (r: seq<(nat, Token)>)
    requires k <= |tokens|
    ensures |r| == k
    ensures forall j :: 0 <= j < k ==> r[j].0 == k - 1 - j && r[j].1 == tokens[r[j].0]
  {
    if k == 0 then [] else [(k - 1, tokens[k - 1])] + ReversedPairs(tokens, k - 1)
  }

  /** Every pair of the whole walk is `enumerate`'s pair, taken in reverse order. */
  lemma ReversedPairsAreEnumerateReversed(tokens: seq<Token>)
    ensures ReversedPairs(tokens, |tokens|) == Reversed(Enumerated(tokens))
  {
  }

  /** The indices of the walk strictly decrease, so no index comes twice. */
  lemma ReversedPairsDecrease(tokens: seq<Token>, k: nat, a: nat, b: nat)
    requires k <= |tokens| && a < b < k
    ensures ReversedPairs(tokens, k)[a].0 > ReversedPairs(tokens, k)[b].0
  {
  }

  /** Every index below `k` comes exactly at one place of the walk. */
  lemma ReversedPairsCoverIndices(tokens: seq<Token>, k: nat, i: nat)
    requires k <= |tokens| && i < k
    ensures ReversedPairs(tokens, k)[k - 1 - i] == (i, tokens[i])
  {
  }

  /**
   * The generator's state: the tokens it walks and how many of them, counted
   * from the front, it has still to yield.
   */
  class ReversedEnumerator {
    const tokens: seq<Token>
    var remaining: nat

    predicate Valid()
      reads this
    {
      remaining <= |tokens|
    }

    /** `reversed_enumerate(tokens)`, before its first `next`. */
    constructor (tokens: seq<Token>)
      ensures Valid() && this.tokens == tokens && remaining == |tokens|
    {
      this.tokens := tokens;
      remaining := |tokens|;
    }

    /** The pairs this generator has still to yield. */
    function Pending(): seq<(nat, Token)>
      requires Valid()
      reads this
    {
      ReversedPairs(tokens, remaining)
    }

    /** `next(gen)`: the next pair, or `None` where Python raises `StopIteration`. */
    method Next() returns (r: Option<(nat, Token)>)
      requires Valid()
      modifies this
      ensures Valid()
      ensures old(Pending()) == [] ==> r == None && Pending() == []
      ensures old(Pending()) != [] ==> r == Some(old(Pending())[0]) && Pending() == old(Pending())[1..]
    {
      if remaining == 0 {
        r := None;
      } else {
        remaining := remaining - 1;
        r := Some((remaining, tokens[remaining]));
      }
    }

    /** `list(gen)`: every pair still to come, in order; the generator is then exhausted. */
    method Rest() returns (rest: seq<(nat, Token)>)
      requires Valid()
      modifies this
      ensures Valid()
      ensures rest == old(Pending()) && Pending() == []
    {
      rest := [];
      var r := Next();
      while r.Some?
        invariant Valid()
        invariant r.Some? ==> rest + [r.value] + Pending() == old(Pending())
        invariant r.None? ==> rest == old(Pending()) && Pending() == []
        decreases remaining, r.Some?
      {
        rest := rest + [r.value];
        r := Next();
      }
    }
  }
}
