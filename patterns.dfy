/**
 * The two string splitters of tokenize-rt: `_re_partition`, which splits a
 * string around the first match of a pattern, and `parse_string_literal`,
 * which splits a string literal into its prefix and its quoted body.
 */
module Patterns {
  import opened Wrappers

  /**
   * The patterns the tokenizer searches for: a literal text, or an escaped
   * newline, a backslash followed by `\n`, `\r\n` or `\r` (the regular
   * expression `\\(\n|\r\n|\r)`).
   */
  datatype Pattern = Literal(text: string) | EscapedNewline

  /** A backslash followed by a line terminator. */
  predicate IsEscapedNewline(s: string)
  {
    s == "\\\n" || s == "\\\r\n" || s == "\\\r"
  }

  /** The length of the match of `p` that starts at index `i` of `s`, if there is one. */
  function MatchAt(p: Pattern, s: string, i: nat): (r: Option<nat>)
    requires i <= |s|
    ensures r.Some? ==> i + r.value <= |s|
    ensures r.Some? && p.Literal? ==> s[i..i + r.value] == p.text
    ensures r.Some? && p.EscapedNewline? ==> IsEscapedNewline(s[i..i + r.value])
  {
    match p
    case Literal(t) =>
      if i + |t| <= |s| && s[i..i + |t|] == t then Some(|t|) else None
    case EscapedNewline =>
      if i + 1 < |s| && s[i] == '\\' && s[i + 1] == '\n' then
        assert s[i..i + 2] == [s[i], s[i + 1]];
        Some(2)
      else if i + 2 < |s| && s[i] == '\\' && s[i + 1] == '\r' && s[i + 2] == '\n' then
        assert s[i..i + 3] == [s[i], s[i + 1], s[i + 2]];
        Some(3)
      else if i + 1 < |s| && s[i] == '\\' && s[i + 1] == '\r' then
        assert s[i..i + 2] == [s[i], s[i + 1]];
        Some(2)
      else None
  }

  /** `regex.search(s)` from index `from`: the first index at which `p` matches. */
  function Search(p: Pattern, s: string, from: nat := 0): (r: Option<nat>)
    requires from <= |s|
    ensures r.Some? ==> from <= r.value <= |s| && MatchAt(p, s, r.value).Some?
    ensures forall j :: from <= j <= |s| && (r.None? || j < r.value) ==> MatchAt(p, s, j).None?
    decreases |s| - from
  {
    if MatchAt(p, s, from).Some? then Some(from)
    else if from == |s| then None
    else Search(p, s, from + 1)
  }

  /**
   * `_re_partition(regex, s)`: `(before, match, after)` around the first match,
   * or `(s, '', '')` when there is none.
   */
  function RePartition(p: Pattern, s: string): (r: (string, string, string))
    ensures r.0 + r.1 + r.2 == s
    ensures Search(p, s).None? ==> r == (s, "", "")
    ensures Search(p, s).Some? ==>
      && MatchAt(p, s, |r.0|) == Some(|r.1|)
      && forall j :: 0 <= j < |r.0| ==> MatchAt(p, s, j).None?
  {
    match Search(p, s)
    case None => (s, "", "")
    case Some(k) =>
      var m := MatchAt(p, s, k).value;
      assert s == s[..k] + s[k..k + m] + s[k + m..];
      (s[..k], s[k..k + m], s[k + m..])
  }

  /** The quote characters that open a string literal's body. */
  predicate IsQuote(c: char) {
    c == '\'' || c == '"'
  }

  /** The index of the first quote in `s` at or after `from`, or `|s|` when there is none. */
  function FirstQuote(s: string, from: nat): (k: nat)
    requires from <= |s|
    ensures from <= k <= |s|
    ensures k < |s| ==> IsQuote(s[k])
    ensures forall j :: from <= j < k ==> !IsQuote(s[j])
    decreases |s| - from
  {
    if from == |s| || IsQuote(s[from]) then from else FirstQuote(s, from + 1)
  }

  /**
   * `parse_string_literal(src)`: the prefix is everything before the first quote
   * (`^([^'"]*)(.*)$`), the body is the rest.  The contract pins the result down:
   * there is exactly one split whose first part has no quote and whose second
   * part is empty or starts with a quote.
   */
  function ParseStringLiteral(s: string): (r: (string, string))
    ensures r.0 + r.1 == s
    ensures forall k :: 0 <= k < |r.0| ==> !IsQuote(r.0[k])
    ensures r.1 == [] || IsQuote(r.1[0])
  {
    var k := FirstQuote(s, 0);
    (s[..k], s[k..])
  }

  /** A literal written as prefix letters followed by a quoted body splits into exactly those two. */
  lemma ParseStringLiteralSplitsPrefix(prefix: string, body: string)
    requires forall k :: 0 <= k < |prefix| ==> !IsQuote(prefix[k])
    requires body != [] && IsQuote(body[0])
    ensures ParseStringLiteral(prefix + body) == (prefix, body)
  {
    var s := prefix + body;
    assert FirstQuote(s, 0) == |prefix| by {
      assert s[|prefix|] == body[0];
    }
  }
}
