/** `reversed_enumerate` over the tokens of `x = 5\n`. */
module EnumerateExamples {
  import opened Wrappers
  import opened Tokens
  import opened Enumerate
  import opened SrcToTokensExamples

  /**
   * The first `next` yields the end marker at index 6; the rest of the walk
   * yields the other six tokens from index 5 down to 0.
   */
  method ReversedEnumerateSimple() returns (first: Option<(nat, Token)>, rest: seq<(nat, Token)>)
    ensures first == Some((6, Token(EndMarker, "", Some(2), Some(0))))
    ensures rest == [
      (5, Token(Newline, "\n", Some(1), Some(5))),
      (4, Token(Number, "5", Some(1), Some(4))),
      (3, Token(UnimportantWs, " ")),
      (2, Token(Op, "=", Some(1), Some(2))),
      (1, Token(UnimportantWs, " ")),
      (0, Token(Name, "x", Some(1), Some(0)))]
  {
    var gen := new ReversedEnumerator(SimpleExpected);
    first := gen.Next();
    rest := gen.Rest();
  }
}
