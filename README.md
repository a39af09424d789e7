# tokenize-rt, modelled in Dafny

tokenize-rt is a lossless layer over Python's lexer. `src_to_tokens(src)` takes
the logical tokens the lexer reports, each with a category, a text, a start
and an end, and fills every gap between them with synthetic tokens:

- `UNIMPORTANT_WS` for whitespace;
- `ESCAPED_NL` for a backslash continuation.

Logical tokens keep their spelling, their line and the UTF-8 byte offset of
their column. Synthetic tokens have no position. A split literal is glued back
together: a string prefix, a legacy octal, or a long suffix that Python 3's
lexer reads as separate tokens. `tokens_to_src` concatenates the token texts,
and with the gaps filled in it gives back the source exactly.

The other helpers:

- `reversed_enumerate` walks a token list backwards as `(index, token)` pairs.
- `parse_string_literal` splits a literal into its prefix and its quoted body.
- `_re_partition` splits a string around the first match of a pattern.
- `rfind_string_parts` walks left from index `n` and collects the `STRING`
  tokens of one implicitly concatenated literal. It sees through grouping
  parentheses, and it rejects parentheses that belong to a call or a subscript.

The behaviour modelled is the one the test suite `tests/tokenize_rt_test.py`
asserts. `tokenize_rt.py` itself is not part of this model, so two loop
structures are reconstructed, and chosen so that they meet every test case:

- the cursor-and-gap walk of `src_to_tokens`;
- the backward depth-tracking loop of `rfind_string_parts`.

Each parametrised test case is a lemma about the model.

Modules:

- `Wrappers`: `Option` and `Result`.
- `Tokens`: the records `Offset` and `Token`, and `tokens_to_src`.
- `Patterns`: `_re_partition` over a small pattern language, and `parse_string_literal`.
- `SourceLines`: physical lines, as `io.StringIO` iterates them, plus position
  arithmetic and UTF-8 lengths.
- `Reconcile`: `src_to_tokens`. There is a specification function `Run`/`Step`,
  and a method `SrcToTokens` whose loop is proved equal to it.
- `Sequences`: `reversed`.
- `Enumerate`: `reversed_enumerate`, as a class holding the generator's
  remaining count.
- `StringParts`: `rfind_string_parts`. There is a specification function
  `Scan`, and a method whose loop is proved equal to it.
- `*Examples`: one lemma, or example method, per test case.

The lexer is a parameter. `SrcToTokens` receives either the lexer's tokens or
the error it raised (`LexOutput`). The round trip holds for every token stream
that satisfies what Python's lexer guarantees (`LexedFrom`):

- every token lies after the previous one;
- each token's text is the source between its start and its end;
- the last token ends at the end of the source.

## Model

| member | source | states |
|---|---|---|
| Tokens.OffsetDefaultValues | tests/tokenize_rt_test.py:32-33 | `Offset()` has no line and no byte offset |
| Tokens.TokenOffsetPacksPosition | tests/tokenize_rt_test.py:36-38 | a token's `offset` is its line and UTF-8 byte offset |
| Tokens.TokensToSrcConcat | tests/tokenize_rt_test.py:150-154 | `tokens_to_src` of a concatenation is the concatenation of the two texts |
| Patterns.RePartition | tests/tokenize_rt_test.py:22-29 | the three parts concatenate to the input; no match gives `(s, '', '')`; otherwise the middle part is a match at the end of the first part, and no match starts earlier |
| PatternsExamples.RePartitionNoMatch | tests/tokenize_rt_test.py:22-24 | partitioning `abc` at `z` gives `('abc', '', '')` |
| PatternsExamples.RePartitionMatch | tests/tokenize_rt_test.py:27-29 | partitioning `abc` at `b` gives `('a', 'b', 'c')` |
| Patterns.ParseStringLiteral | tests/tokenize_rt_test.py:173-183 | prefix and body concatenate to the literal; the prefix holds no quote; the body is empty or starts with a quote |
| Patterns.ParseStringLiteralSplitsPrefix | tests/tokenize_rt_test.py:173-183 | quote-free prefix letters (case kept) followed by a quoted body split into exactly those two parts, triple quotes kept whole |
| PatternsExamples.ParseStringLiteralCases | tests/tokenize_rt_test.py:173-183 | `""`, `u"foo"`, `F"hi"` and `r"""x"""` split as the test expects |
| SourceLines.SplitLines | tests/tokenize_rt_test.py:55-108 | the physical lines concatenate to the source, and every line but the last ends in a line feed |
| Reconcile.SplitEscapedNewlines | tests/tokenize_rt_test.py:55-108 | the tokens of a multi-line gap spell the gap exactly |
| Reconcile.SplitEscapedNewlinesShape | tests/tokenize_rt_test.py:55-108 | gap tokens are synthetic and have no position; each `ESCAPED_NL` is a backslash and a line terminator; each whitespace token is non-empty and holds no escaped newline; no two whitespace tokens are adjacent; an escaped `\r` is never followed by a `\n`, which would have made it `\r\n` |
| Reconcile.EscapedNewlineGap | tests/tokenize_rt_test.py:55-108 | a token after a backslash continuation: whitespace only when some precedes the backslash, the escaped newline, the indentation, then the token on the next line at the byte length of the indentation |
| Reconcile.AppendLogical | tests/tokenize_rt_test.py:111-139 | a split literal is glued onto the previous token, which keeps its position and gets the combined spelling; any other lexer token is appended with its line and byte offset |
| Reconcile.AppendLogicalText | tests/tokenize_rt_test.py:111-139 | gluing or appending adds exactly the lexer token's text |
| Reconcile.GapTokensInSource | tests/tokenize_rt_test.py:41-108 | the synthetic tokens of a gap spell exactly the source between the two positions |
| Reconcile.StepRoundTrip | tests/tokenize_rt_test.py:142-154 | one step extends the spelled prefix of the source up to the token's end |
| Reconcile.RunRoundTrip | tests/tokenize_rt_test.py:142-154 | after `k` well-placed lexer tokens, the emitted tokens spell the source up to the cursor |
| Reconcile.RoundTrip | tests/tokenize_rt_test.py:142-154 | `tokens_to_src(src_to_tokens(src)) == src` for every lexer output that fits the source |
| Reconcile.StepPositions | tests/tokenize_rt_test.py:41-53 | a step keeps the rule that synthetic tokens have no position and lexer tokens have both line and offset |
| Reconcile.RunPositions | tests/tokenize_rt_test.py:41-53 | the whole result follows that position rule |
| Reconcile.AppendMultiLineGap | tests/tokenize_rt_test.py:55-108 | the partition loop over a multi-line gap emits `SplitEscapedNewlines` of the gap |
| Reconcile.AppendGap | tests/tokenize_rt_test.py:41-108 | the gap handling emits exactly `GapTokens` between the cursor and the next token |
| Reconcile.SrcToTokens | tests/tokenize_rt_test.py:41-154 | the loop computes `Run`; a lexer error is passed on; for a stream that fits the source the result spells the source; positions follow the rule |
| SrcToTokensExamples.SimpleSourceTokens | tests/tokenize_rt_test.py:41-53 | `x = 5\n` gives the seven tokens the test lists |
| SrcToTokensExamples.EscapedNewlineSourceTokens | tests/tokenize_rt_test.py:55-72 | `x = \\\n    5\n` gives whitespace, `ESCAPED_NL`, indentation, then `5` at line 2, offset 4 |
| SrcToTokensExamples.EscapedNewlineNoLeftWsSourceTokens | tests/tokenize_rt_test.py:74-90 | with no space before the backslash, no whitespace token precedes `ESCAPED_NL` |
| SrcToTokensExamples.EscapedNewlineWindowsSourceTokens | tests/tokenize_rt_test.py:92-108 | a `\r\n` continuation is one `ESCAPED_NL` token `\\\r\n` |
| SrcToTokensExamples.PrefixSplitSourceTokens | tests/tokenize_rt_test.py:111-119 | for every non-empty string prefix read as a name (as Python 3 reads `ur`), the result is one `STRING` spelled as written, and the newline sits at offset `5 + len(prefix)` |
| SrcToTokensExamples.PrefixWholeSourceTokens | tests/tokenize_rt_test.py:111-119 | the same result when the lexer reads the prefixed literal whole (as Python 3 reads `f` or `rb`) |
| SrcToTokensExamples.StringPrefixCases | tests/tokenize_rt_test.py:111-119 | the six prefixes, each as Python 3 lexes it: `f`, `rb`, `F` and `RB` as one `STRING`, `ur` and `UR` as a `NAME` before the `STRING` |
| SrcToTokensExamples.OctalLiteralSourceTokens | tests/tokenize_rt_test.py:122-128 | `0755\n` gives one `NUMBER` `0755` at offset 0, then the newline at offset 4 |
| SrcToTokensExamples.LongLowerLSourceTokens | tests/tokenize_rt_test.py:131-139 | `123l\n` gives one `NUMBER` `123l` |
| SrcToTokensExamples.LongUpperLSourceTokens | tests/tokenize_rt_test.py:131-139 | `123L\n` gives one `NUMBER` `123L` |
| Sequences.Reversed | tests/tokenize_rt_test.py:157-170 | element `k` of the result is element `len - 1 - k` of the input |
| Enumerate.ReversedPairs | tests/tokenize_rt_test.py:157-170 | with `k` tokens left, the pairs are `(k-1-j, tokens[k-1-j])` |
| Enumerate.ReversedPairsAreEnumerateReversed | tests/tokenize_rt_test.py:157-170 | the whole walk is `enumerate(tokens)` reversed |
| Enumerate.ReversedPairsDecrease | tests/tokenize_rt_test.py:157-170 | indices strictly decrease along the walk |
| Enumerate.ReversedPairsCoverIndices | tests/tokenize_rt_test.py:157-170 | every index below `k` occurs, paired with its token |
| Enumerate.ReversedEnumerator.constructor | tests/tokenize_rt_test.py:159 | a new generator has every token still to yield |
| Enumerate.ReversedEnumerator.Next | tests/tokenize_rt_test.py:160 | `next` yields the first pending pair and drops it, or yields nothing once exhausted |
| Enumerate.ReversedEnumerator.Rest | tests/tokenize_rt_test.py:162 | `list(gen)` is every pending pair in order, and the generator is then exhausted |
| EnumerateExamples.ReversedEnumerateSimple | tests/tokenize_rt_test.py:157-170 | over the tokens of `x = 5\n`: first `(6, ENDMARKER)`, then indices 5 down to 0 |
| StringParts.StringPartsAreOneLiteral | tests/tokenize_rt_test.py:186-258 | the result is empty, or it is the `STRING` indices of a range ending at `n` in which every other token is non-coding or a parenthesis |
| StringParts.StringPartsFindWholeRun | tests/tokenize_rt_test.py:186-196 | outside parentheses, when `tokens[m..n]` are strings and non-coding tokens and the token before `m` is the start or a coding token that is not a string or `)`, the result is exactly the `STRING` indices in `[m, n]`, and it is non-empty and ends with `n` when `tokens[n]` is a `STRING` |
| StringParts.StringPartsFindGroupedRun | tests/tokenize_rt_test.py:242-258 | when the `(` at `m` closes the parentheses left open by `tokens[m+1..n]`, and no callee precedes it, the result is exactly the `STRING` indices inside |
| StringParts.StringPartsRejectCall | tests/tokenize_rt_test.py:225-240 | the same parentheses preceded by `]`, `)` or a non-keyword name give `()` |
| StringParts.StringPartsRejectInGroup | tests/tokenize_rt_test.py:229 | any coding token other than a string or a parenthesis inside open parentheses gives `()` |
| StringParts.StringPartsAscending | tests/tokenize_rt_test.py:192-217 | the result lists only `STRING` tokens at or before `n`, strictly ascending |
| StringParts.StringPartsEndAtString | tests/tokenize_rt_test.py:186-217 | starting at a `STRING`, a non-empty result ends with `n` |
| StringParts.StringPartsHaveNoGap | tests/tokenize_rt_test.py:192-217 | a non-empty result holds every `STRING` between its first index and `n` |
| StringParts.NotAStringLiteral | tests/tokenize_rt_test.py:220-222 | a token at `n` that is not a string, a non-coding token or a parenthesis gives `()` |
| StringParts.CallBeforeParen | tests/tokenize_rt_test.py:225-240 | the inner loop finds a callee exactly when the nearest coding token left of the `(` is `]`, `)` or a non-keyword name |
| StringParts.RFindStringParts | tests/tokenize_rt_test.py:186-258 | the loop computes `Scan`; every index is a `STRING` at or before `n`; indices strictly ascend |
| StringPartsExamples.OnlyLiteralEmptyString | tests/tokenize_rt_test.py:186-189 | the tokens of `""` spell it, and the result at 0 is `(0,)` |
| StringPartsExamples.OnlyLiteralBytes | tests/tokenize_rt_test.py:186-189 | `b''` gives `(0,)` |
| StringPartsExamples.OnlyLiteralFormatted | tests/tokenize_rt_test.py:186-189 | `f''` gives `(0,)` |
| StringPartsExamples.OnlyLiteralRawTripleQuoted | tests/tokenize_rt_test.py:186-189 | `r'''.'''` gives `(0,)` |
| StringPartsExamples.TwoPartsOnOneLine | tests/tokenize_rt_test.py:195 | `"foo" "bar"` at 2 gives `(0, 2)` |
| StringPartsExamples.TripleQuotedThenPlain | tests/tokenize_rt_test.py:196 | `"""foo""" "bar"` at 2 gives `(0, 2)` |
| StringPartsExamples.ParenthesizedOverLines | tests/tokenize_rt_test.py:197-205 | the parenthesised two-line literal, from its `)` at 8, gives `(3, 6)` |
| StringPartsExamples.CallArgumentOverLines | tests/tokenize_rt_test.py:206-213 | a two-line call argument at 7 gives `(4, 7)` |
| StringPartsExamples.NotAString | tests/tokenize_rt_test.py:220-222 | `print` at 0 gives `()` |
| StringPartsExamples.CommaInsideCall | tests/tokenize_rt_test.py:229 | `x(1, "foo")` at 6 gives `()` |
| StringPartsExamples.CallWithSpaceBeforeParen | tests/tokenize_rt_test.py:231 | `x ("foo")` at 4 gives `()` |
| StringPartsExamples.CallOfSubscript | tests/tokenize_rt_test.py:233 | `x[0]("foo")` at 6 gives `()` |
| StringPartsExamples.CallOfCall | tests/tokenize_rt_test.py:235 | `x(0)("foo")` at 6 gives `()` |
| StringPartsExamples.Parenthesized | tests/tokenize_rt_test.py:247 | `("foo")` at 2 gives `(1,)` |
| StringPartsExamples.ParenthesizedThreeDeep | tests/tokenize_rt_test.py:249 | `((("foo")))` at 6 gives `(3,)` |
| StringPartsExamples.ParenthesizedAfterOperator | tests/tokenize_rt_test.py:251 | `a + ("foo")` at 6 gives `(5,)` |
| StringPartsExamples.ParenthesizedAfterKeyword | tests/tokenize_rt_test.py:253 | `a or ("foo")` at 6 gives `(5,)`, because `or` is a keyword |

## Left out

- Python's `tokenize` lexer is not modelled. `SrcToTokens` takes its output, or its error, as a parameter. The round trip is proved for every token stream that meets `LexedFrom`.
- The examples take the lexer's tokens as Python 3's lexer reports them for each source. That the lexer really reports those tokens is not proved.
- StringPartsExamples: each token list is written out as `src_to_tokens` returns it, and each is proved to spell its source. That the list is `src_to_tokens`' output is not proved. Deriving it through `SrcToTokensSpec`, one proof step per lexer token as in `SrcToTokensExamples`, was left out because of its verification cost.
- `main` and `test_main`: they read a file and print to standard output.
- The resource files read by `test_roundtrip_tokenize` are not shown. `RoundTrip` states the round trip over any source instead.
- The regular-expression engine is not modelled. `Pattern` covers only the two patterns used: a literal text, and the escaped newline `\\(\n|\r\n|\r)`.
- Reconcile.SrcToTokens: the lexer's `line` attribute is taken to be the physical line of the token's start. On the line just past the last one, `InRange` admits only column 0, where the lexer puts `ENDMARKER` and closing `DEDENT`s, so no gap takes any text from that line.
- StringParts.RFindStringParts: it requires `n < len(tokens)`, because Python raises `IndexError` otherwise.
- Enumerate.ReversedEnumerator: the tokens are a value snapshot. Editing the list during the walk is not modelled, and the tests do not assert it.
- `parse_string_literal` is modelled by its regular expression `^([^'"]*)(.*)$`: the prefix is everything before the first quote, letters or not. The tests only use letter prefixes.
- Python 3.12's split f-string tokens (`FSTRING_START` and the ones after it) are not modelled. The categories are those of the lexer the tests were written against.
- Python 2 behaviour is not modelled: the `unicode_literals` import, and the lexer that already knows `ur` and `0755`. The model reconciles whatever token stream it is given.
