/**
 * `rfind_string_parts`: walking left from index `n`, find the indices of the
 * `STRING` tokens that make up one implicitly concatenated string literal,
 * possibly wrapped in grouping parentheses.
 */
module StringParts {
  import opened Wrappers
  import opened Tokens
  import opened Sequences

  /** Python 3's `keyword.kwlist`. */
  const Keywords: seq<string> := [
    "False", "None", "True", "and", "as", "assert", "async", "await",
    "break", "class", "continue", "def", "del", "elif", "else", "except",
    "finally", "for", "from", "global", "if", "import", "in", "is",
    "lambda", "nonlocal", "not", "or", "pass", "raise", "return", "try",
    "while", "with", "yield"]

  predicate IsKeyword(s: string) {
    s in Keywords
  }

  /**
   * A token that, just left of a grouping `(`, shows that the parentheses
   * belong to a call or a subscript: a `]`, a `)` or a name that is not a keyword.
   */
  predicate EndsCallee(t: Token) {
    t.src == "]" || t.src == ")" || (t.name == Name && !IsKeyword(t.src))
  }

  /**
   * The inner scan: the nearest coding token among `tokens[..hi]` ends a callee.
   * Non-coding tokens are skipped; reaching the start means it does not.
   */
  function CallBefore(tokens: seq<Token>, hi: nat): bool
    requires hi <= |tokens|
    decreases hi
  {
    if hi == 0 then false
    else if tokens[hi - 1].name.IsNonCoding() then CallBefore(tokens, hi - 1)
    else EndsCallee(tokens[hi - 1])
  }

  /**
   * The outer scan, from index `hi - 1` down to 0, with the parenthesis depth
   * and the indices found so far (in the order they were found).
   */
  function Scan(tokens: seq<Token>, hi: nat, depth: nat, found: seq<nat>): seq<nat>
    requires hi <= |tokens|
    decreases hi
  {
    if hi == 0 then Reversed(found)
    else
      var i := hi - 1;
      var t := tokens[i];
      if t.name == String then Scan(tokens, i, depth, found + [i])
      else if t.name.IsNonCoding() then Scan(tokens, i, depth, found)
      else if t.src == ")" then Scan(tokens, i, depth + 1, found)
      else if depth > 0 && t.src == "(" then
        if depth > 1 then Scan(tokens, i, depth - 1, found)
        else if CallBefore(tokens, i) then []
        else Reversed(found)
      else if depth > 0 then []
      else Reversed(found)
  }

  /** `rfind_string_parts(tokens, n)`. */
  function RFindStringPartsSpec(tokens: seq<Token>, n: nat): seq<nat>
    requires n < |tokens|
  {
    Scan(tokens, n + 1, 0, [])
  }

  /** The tokens a string literal's parts may be separated by: strings, non-coding tokens and parentheses. */
  predicate InLiteral(t: Token) {
    t.name == String || t.name.IsNonCoding() || t.src == "(" || t.src == ")"
  }

  predicate InLiteralBetween(tokens: seq<Token>, lo: nat, hi: nat)
    requires lo <= hi <= |tokens|
  {
    forall k :: lo <= k < hi ==> InLiteral(tokens[k])
  }

  /** The indices of the `STRING` tokens among `tokens[lo..hi]`, ascending. */
  function StringsBetween(tokens: seq<Token>, lo: nat, hi: nat): (r: seq<nat>)
    requires lo <= hi <= |tokens|
    ensures forall k :: 0 <= k < |r| ==> lo <= r[k] < hi && tokens[r[k]].name == String
    ensures forall k, k' :: 0 <= k < k' < |r| ==> r[k] < r[k']
    decreases hi - lo
  {
    if lo == hi then []
    else if tokens[lo].name == String then [lo] + StringsBetween(tokens, lo + 1, hi)
    else StringsBetween(tokens, lo + 1, hi)
  }

  /** Every `STRING` index in `[lo, hi)` is listed. */
  lemma {:induction false} StringsBetweenComplete(tokens: seq<Token>, lo: nat, hi: nat, k: nat)
    requires lo <= k < hi <= |tokens|
    requires tokens[k].name == String
    ensures k in StringsBetween(tokens, lo, hi)
    decreases hi - lo
  {
    if lo < k {
      StringsBetweenComplete(tokens, lo + 1, hi, k);
    }
  }

  /** When the last token of the range is a `STRING`, it is the last index listed. */
  lemma {:induction false} StringsBetweenLast(tokens: seq<Token>, lo: nat, hi: nat)
    requires lo < hi <= |tokens|
    requires tokens[hi - 1].name == String
    ensures var r := StringsBetween(tokens, lo, hi); r != [] && r[|r| - 1] == hi - 1
    decreases hi - lo
  {
    if lo < hi - 1 {
      StringsBetweenLast(tokens, lo + 1, hi);
    }
  }

  /**
   * `r` lists, in ascending order, every `STRING` index in some range
   * `[m, end)` that holds only literal parts.
   */
  predicate IsStringRun(tokens: seq<Token>, end: nat, r: seq<nat>)
    requires end <= |tokens|
  {
    exists m: nat :: m <= end && InLiteralBetween(tokens, m, end) && r == StringsBetween(tokens, m, end)
  }

  /** A scan that stops with the indices found so far ends with a string run. */
  lemma StopIsStringRun(tokens: seq<Token>, end: nat, hi: nat, found: seq<nat>)
    requires hi <= end <= |tokens|
    requires Reversed(found) == StringsBetween(tokens, hi, end)
    requires InLiteralBetween(tokens, hi, end)
    ensures IsStringRun(tokens, end, Reversed(found))
  {
  }

  /** Taking in one more literal part, at index `i`, keeps the scan's invariant. */
  lemma ExtendStringRun(tokens: seq<Token>, end: nat, i: nat, found: seq<nat>)
    requires i < end <= |tokens|
    requires InLiteral(tokens[i])
    requires Reversed(found) == StringsBetween(tokens, i + 1, end)
    requires InLiteralBetween(tokens, i + 1, end)
    ensures var found' := if tokens[i].name == String then found + [i] else found;
      Reversed(found') == StringsBetween(tokens, i, end) && InLiteralBetween(tokens, i, end)
  {
    if tokens[i].name == String {
      ReversedAppend(found, i);
    }
  }

  /**
   * The invariant of the outer scan: the indices found so far are exactly the
   * `STRING` indices in `[hi, n]`, and only literal parts lie there.  The scan
   * then ends with nothing, or with a string run.
   */
  lemma {:induction false} ScanIsStringRun(tokens: seq<Token>, n: nat, hi: nat, depth: nat, found: seq<nat>)
    requires hi <= n + 1 <= |tokens|
    requires Reversed(found) == StringsBetween(tokens, hi, n + 1)
    requires InLiteralBetween(tokens, hi, n + 1)
    ensures var r := Scan(tokens, hi, depth, found); r == [] || IsStringRun(tokens, n + 1, r)
    decreases hi
  {
    if hi == 0 {
      StopIsStringRun(tokens, n + 1, hi, found);
    } else {
      var i := hi - 1;
      var t := tokens[i];
      if t.name == String || t.name.IsNonCoding() || t.src == ")" || (depth > 1 && t.src == "(") {
        var found' := if t.name == String then found + [i] else found;
        var depth': nat :=
          if t.name == String || t.name.IsNonCoding() then depth
          else if t.src == ")" then depth + 1
          else depth - 1;
        assert Scan(tokens, hi, depth, found) == Scan(tokens, i, depth', found');
        ExtendStringRun(tokens, n + 1, i, found);
        ScanIsStringRun(tokens, n, i, depth', found');
      } else {
        StopIsStringRun(tokens, n + 1, hi, found);
      }
    }
  }

  /**
   * What `rfind_string_parts(tokens, n)` returns is empty or the indices, in
   * ascending order, of every `STRING` token in some range `[m, n]` in which
   * every other token is non-coding or a parenthesis.
   */
  lemma StringPartsAreOneLiteral(tokens: seq<Token>, n: nat)
    requires n < |tokens|
    ensures var r := RFindStringPartsSpec(tokens, n);
      r == [] || IsStringRun(tokens, n + 1, r)
  {
    ScanIsStringRun(tokens, n, n + 1, 0, []);
  }

  /** The result lists only `STRING` tokens at or before `n`, in strictly ascending order. */
  lemma StringPartsAscending(tokens: seq<Token>, n: nat)
    requires n < |tokens|
    ensures var r := RFindStringPartsSpec(tokens, n);
      && (forall k :: 0 <= k < |r| ==> r[k] <= n && tokens[r[k]].name == String)
      && (forall k, k' :: 0 <= k < k' < |r| ==> r[k] < r[k'])
  {
    StringPartsAreOneLiteral(tokens, n);
  }

  /** Starting at a `STRING`, a non-empty result ends with `n` itself. */
  lemma StringPartsEndAtString(tokens: seq<Token>, n: nat)
    requires n < |tokens| && tokens[n].name == String
    ensures var r := RFindStringPartsSpec(tokens, n); r != [] ==> r[|r| - 1] == n
  {
    var r := RFindStringPartsSpec(tokens, n);
    StringPartsAreOneLiteral(tokens, n);
    if r != [] {
      var m: nat :| m <= n + 1 && InLiteralBetween(tokens, m, n + 1) && r == StringsBetween(tokens, m, n + 1);
      StringsBetweenLast(tokens, m, n + 1);
    }
  }

  /** A non-empty result lists every `STRING` between its first index and `n`. */
  lemma StringPartsHaveNoGap(tokens: seq<Token>, n: nat, k: nat)
    requires n < |tokens|
    requires RFindStringPartsSpec(tokens, n) != []
    requires RFindStringPartsSpec(tokens, n)[0] <= k <= n && tokens[k].name == String
    ensures k in RFindStringPartsSpec(tokens, n)
  {
    var r := RFindStringPartsSpec(tokens, n);
    StringPartsAreOneLiteral(tokens, n);
    var m: nat :| m <= n + 1 && InLiteralBetween(tokens, m, n + 1) && r == StringsBetween(tokens, m, n + 1);
    StringsBetweenComplete(tokens, m, n + 1, k);
  }

  /** A coding token whose text is `(`: the scan's opening parenthesis. */
  predicate IsOpen(t: Token) {
    t.name != String && !t.name.IsNonCoding() && t.src == "("
  }

  /** What the scan adds to its depth when it crosses `t`. */
  function Delta(t: Token): int {
    if t.name == String || t.name.IsNonCoding() then 0
    else if t.src == ")" then 1
    else if t.src == "(" then -1
    else 0
  }

  /** Closing minus opening parentheses among `tokens[lo..hi]`: the scan's depth once it has crossed them. */
  function Depth(tokens: seq<Token>, lo: nat, hi: nat): int
    requires lo <= hi <= |tokens|
    decreases hi - lo
  {
    if lo == hi then 0 else Delta(tokens[lo]) + Depth(tokens, lo + 1, hi)
  }

  /** The indices the scan has collected once it has crossed `tokens[lo..hi]` from the right. */
  function Collected(tokens: seq<Token>, lo: nat, hi: nat): (r: seq<nat>)
    requires lo <= hi <= |tokens|
    decreases hi - lo
  {
    if lo == hi then []
    else if tokens[lo].name == String then Collected(tokens, lo + 1, hi) + [lo]
    else Collected(tokens, lo + 1, hi)
  }

  /** Read backwards, the collected indices are the `STRING` indices in ascending order. */
  lemma {:induction false} CollectedReversed(tokens: seq<Token>, lo: nat, hi: nat)
    requires lo <= hi <= |tokens|
    ensures Reversed(Collected(tokens, lo, hi)) == StringsBetween(tokens, lo, hi)
    decreases hi - lo
  {
    if lo < hi {
      CollectedReversed(tokens, lo + 1, hi);
      if tokens[lo].name == String {
        ReversedAppend(Collected(tokens, lo + 1, hi), lo);
      }
    }
  }

  /**
   * `tokens[lo..n + 1]` are literal parts that the scan crosses without
   * stopping: no parenthesis opens more than was closed to its right, and
   * none closes the outermost group.
   */
  predicate Unclosed(tokens: seq<Token>, lo: nat, n: nat)
    requires lo <= n + 1 <= |tokens|
  {
    && InLiteralBetween(tokens, lo, n + 1)
    && forall k :: lo <= k <= n ==> Depth(tokens, k, n + 1) >= 0 && (IsOpen(tokens[k]) ==> Depth(tokens, k, n + 1) > 0)
  }

  /** Only strings and non-coding tokens leave the depth unchanged. */
  lemma {:induction false} DepthOfPlainRun(tokens: seq<Token>, lo: nat, hi: nat)
    requires lo <= hi <= |tokens|
    requires forall k :: lo <= k < hi ==> tokens[k].name == String || tokens[k].name.IsNonCoding()
    ensures Depth(tokens, lo, hi) == 0
    decreases hi - lo
  {
    if lo < hi {
      DepthOfPlainRun(tokens, lo + 1, hi);
    }
  }

  /** Crossing the literal part at `i` moves the scan from its state at `i + 1` to its state at `i`. */
  lemma ScanCrossesOne(tokens: seq<Token>, n: nat, lo: nat, i: nat)
    requires lo <= i <= n < |tokens|
    requires Unclosed(tokens, lo, n)
    requires Depth(tokens, i + 1, n + 1) >= 0
    ensures Depth(tokens, i, n + 1) >= 0
    ensures Scan(tokens, i + 1, Depth(tokens, i + 1, n + 1) as nat, Collected(tokens, i + 1, n + 1))
         == Scan(tokens, i, Depth(tokens, i, n + 1) as nat, Collected(tokens, i, n + 1))
  {
    assert InLiteral(tokens[i]);
    assert Depth(tokens, i, n + 1) >= 0 && (IsOpen(tokens[i]) ==> Depth(tokens, i, n + 1) > 0);
  }

  /** The scan crosses an unclosed range of literal parts, collecting its strings. */
  lemma {:induction false} ScanCrosses(tokens: seq<Token>, n: nat, lo: nat, hi: nat)
    requires lo <= hi <= n + 1 <= |tokens|
    requires Unclosed(tokens, lo, n)
    requires Depth(tokens, hi, n + 1) >= 0
    ensures Scan(tokens, hi, Depth(tokens, hi, n + 1) as nat, Collected(tokens, hi, n + 1))
         == Scan(tokens, lo, Depth(tokens, lo, n + 1) as nat, Collected(tokens, lo, n + 1))
    decreases hi - lo
  {
    if lo < hi {
      ScanCrossesOne(tokens, n, lo, hi - 1);
      ScanCrosses(tokens, n, lo, hi - 1);
    }
  }

  /** `rfind_string_parts(tokens, n)` is the scan's state after crossing `tokens[lo..n + 1]`. */
  lemma ScanFrom(tokens: seq<Token>, n: nat, lo: nat)
    requires lo <= n < |tokens|
    requires Unclosed(tokens, lo, n)
    ensures RFindStringPartsSpec(tokens, n)
         == Scan(tokens, lo, Depth(tokens, lo, n + 1) as nat, Collected(tokens, lo, n + 1))
  {
    ScanCrosses(tokens, n, lo, n + 1);
  }

  /** Only strings and non-coding tokens: the scan crosses them all at depth 0. */
  lemma PlainRunUnclosed(tokens: seq<Token>, m: nat, n: nat)
    requires m <= n < |tokens|
    requires forall k :: m <= k <= n ==> tokens[k].name == String || tokens[k].name.IsNonCoding()
    ensures Unclosed(tokens, m, n) && Depth(tokens, m, n + 1) == 0
  {
    var end := n + 1;
    forall k | m <= k <= end
      ensures Depth(tokens, k, end) == 0
    {
      DepthOfPlainRun(tokens, k, end);
    }
  }

  /** At depth 0 the scan stops at the start, or at a coding token that is not a string or a `)`. */
  lemma ScanStopsOutside(tokens: seq<Token>, lo: nat, found: seq<nat>)
    requires lo <= |tokens|
    requires lo == 0 || (tokens[lo - 1].name != String && !tokens[lo - 1].name.IsNonCoding() && tokens[lo - 1].src != ")")
    ensures Scan(tokens, lo, 0, found) == Reversed(found)
  {
  }

  /** At depth 1 an opening parenthesis closes the group: a call gives `()`, a grouping stops the scan. */
  lemma ScanClosesGroup(tokens: seq<Token>, lo: nat, found: seq<nat>)
    requires 0 < lo <= |tokens| && IsOpen(tokens[lo - 1])
    ensures Scan(tokens, lo, 1, found) == if CallBefore(tokens, lo - 1) then [] else Reversed(found)
  {
  }

  /** Inside parentheses any coding token that is not a literal part gives `()`. */
  lemma ScanRejects(tokens: seq<Token>, lo: nat, depth: nat, found: seq<nat>)
    requires 0 < lo <= |tokens| && depth > 0 && !InLiteral(tokens[lo - 1])
    ensures Scan(tokens, lo, depth, found) == []
  {
  }

  /**
   * Outside parentheses: when `tokens[m..n + 1]` are strings and non-coding
   * tokens, and the token before `m` (if any) is a coding token that is not a
   * string or a `)`, the result is every `STRING` index in `[m, n]`; it is not
   * empty when `tokens[n]` is a `STRING`.
   */
  lemma StringPartsFindWholeRun(tokens: seq<Token>, m: nat, n: nat)
    requires m <= n < |tokens|
    requires forall k :: m <= k <= n ==> tokens[k].name == String || tokens[k].name.IsNonCoding()
    requires m == 0 || (tokens[m - 1].name != String && !tokens[m - 1].name.IsNonCoding() && tokens[m - 1].src != ")")
    ensures var r := RFindStringPartsSpec(tokens, n);
      && r == StringsBetween(tokens, m, n + 1)
      && (tokens[n].name == String ==> r != [] && r[|r| - 1] == n)
  {
    var run := Collected(tokens, m, n + 1);
    PlainRunUnclosed(tokens, m, n);
    ScanFrom(tokens, n, m);
    assert RFindStringPartsSpec(tokens, n) == Scan(tokens, m, 0, run);
    ScanStopsOutside(tokens, m, run);
    CollectedReversed(tokens, m, n + 1);
    if tokens[n].name == String {
      StringsBetweenLast(tokens, m, n + 1);
    }
  }

  /** The scan reaches the `(` at `m` at depth 1, with the strings inside collected. */
  lemma ScanFromGroup(tokens: seq<Token>, m: nat, n: nat)
    requires m < n < |tokens|
    requires IsOpen(tokens[m]) && Unclosed(tokens, m + 1, n) && Depth(tokens, m, n + 1) == 0
    ensures RFindStringPartsSpec(tokens, n) == Scan(tokens, m + 1, 1, Collected(tokens, m + 1, n + 1))
  {
    assert Depth(tokens, m + 1, n + 1) == 1;
    ScanFrom(tokens, n, m + 1);
  }

  /**
   * Inside grouping parentheses: when the `(` at `m` closes the group that
   * `tokens[m + 1..n + 1]` leave open, and no callee precedes it, the result is
   * every `STRING` index inside.
   */
  lemma StringPartsFindGroupedRun(tokens: seq<Token>, m: nat, n: nat)
    requires m < n < |tokens|
    requires IsOpen(tokens[m]) && Unclosed(tokens, m + 1, n) && Depth(tokens, m, n + 1) == 0
    requires !CallBefore(tokens, m)
    ensures RFindStringPartsSpec(tokens, n) == StringsBetween(tokens, m + 1, n + 1)
  {
    ScanFromGroup(tokens, m, n);
    ScanClosesGroup(tokens, m + 1, Collected(tokens, m + 1, n + 1));
    CollectedReversed(tokens, m + 1, n + 1);
  }

  /** The same group preceded by a callee is a call's argument list, which gives `()`. */
  lemma StringPartsRejectCall(tokens: seq<Token>, m: nat, n: nat)
    requires m < n < |tokens|
    requires IsOpen(tokens[m]) && Unclosed(tokens, m + 1, n) && Depth(tokens, m, n + 1) == 0
    requires CallBefore(tokens, m)
    ensures RFindStringPartsSpec(tokens, n) == []
  {
    ScanFromGroup(tokens, m, n);
    ScanClosesGroup(tokens, m + 1, Collected(tokens, m + 1, n + 1));
  }

  /** Any other coding token inside open parentheses gives `()`. */
  lemma StringPartsRejectInGroup(tokens: seq<Token>, j: nat, n: nat)
    requires j < n < |tokens|
    requires !InLiteral(tokens[j]) && Unclosed(tokens, j + 1, n) && Depth(tokens, j + 1, n + 1) > 0
    ensures RFindStringPartsSpec(tokens, n) == []
  {
    var depth: nat := Depth(tokens, j + 1, n + 1);
    ScanFrom(tokens, n, j + 1);
    assert RFindStringPartsSpec(tokens, n) == Scan(tokens, j + 1, depth, Collected(tokens, j + 1, n + 1));
    ScanRejects(tokens, j + 1, depth, Collected(tokens, j + 1, n + 1));
  }

  /** A coding token at `n` that is neither a string nor a `)` is not part of a literal. */
  lemma NotAStringLiteral(tokens: seq<Token>, n: nat)
    requires n < |tokens|
    requires !InLiteral(tokens[n])
    ensures RFindStringPartsSpec(tokens, n) == []
  {
  }

  /** The inner scan left of the `(` at `i`; returns true when it finds a callee. */
  method CallBeforeParen(tokens: seq<Token>, i: nat) returns (call: bool)
    requires i <= |tokens|
    ensures call == CallBefore(tokens, i)
  {
    var j: nat := i;
    while j > 0
      invariant j <= i
      invariant CallBefore(tokens, j) == CallBefore(tokens, i)
      decreases j
    {
      j := j - 1;
      var tok := tokens[j];
      if tok.name.IsNonCoding() {
      } else if EndsCallee(tok) {
        return true;
      } else {
        break;
      }
    }
    return false;
  }

  /**
   * `rfind_string_parts(tokens, n)`: walks left from `n`, collecting `STRING`
   * indices, skipping non-coding tokens and tracking parentheses; a closed
   * grouping that turns out to be a call, or any other coding token inside the
   * parentheses, gives the empty result.
   */
  method RFindStringParts(tokens: seq<Token>, n: nat) returns (r: seq<nat>)
    requires n < |tokens|
    ensures r == RFindStringPartsSpec(tokens, n)
    ensures forall k :: 0 <= k < |r| ==> r[k] <= n && tokens[r[k]].name == String
    ensures forall k, k' :: 0 <= k < k' < |r| ==> r[k] < r[k']
  {
    StringPartsAscending(tokens, n);
    var ret: seq<nat> := [];
    var depth: nat := 0;
    var i: nat := n + 1;
    while i > 0
      invariant i <= n + 1
      invariant Scan(tokens, i, depth, ret) == RFindStringPartsSpec(tokens, n)
      decreases i
    {
      var tok := tokens[i - 1];
      if tok.name == String {
        ret := ret + [i - 1];
      } else if tok.name.IsNonCoding() {
      } else if tok.src == ")" {
        depth := depth + 1;
      } else if depth > 0 && tok.src == "(" {
        depth := depth - 1;
        if depth == 0 {
          var call := CallBeforeParen(tokens, i - 1);
          if call {
            return [];
          }
          break;
        }
      } else if depth > 0 {
        return [];
      } else {
        break;
      }
      i := i - 1;
    }
    r := Reversed(ret);
  }
}
