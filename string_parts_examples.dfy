/**
 * `rfind_string_parts` on the token lists that `src_to_tokens` gives for small
 * sources.  Each example also shows that its token list spells out the source.
 */
module StringPartsExamples {
  import opened Wrappers
  import opened Tokens
  import opened StringParts

  /** The texts of `ts[k..]`, concatenated from the front; it unfolds cheaply on a display. */
  function TextFrom(ts: seq<Token>, k: nat): string
    decreases |ts| - k
  {
    if k >= |ts| then "" else ts[k].src + TextFrom(ts, k + 1)
  }

  lemma {:induction false} TextFromIsTokensToSrc(ts: seq<Token>, k: nat)
    requires k <= |ts|
    ensures TextFrom(ts, k) == TokensToSrc(ts[k..])
    decreases |ts| - k
  {
    if k < |ts| {
      var head, rest := [ts[k]], ts[k + 1..];
      TextFromIsTokensToSrc(ts, k + 1);
      assert head + rest == ts[k..];
      assert TokensToSrc(head) == ts[k].src by {
        assert head[..0] == [];
      }
      TokensToSrcConcat(head, rest);
    }
  }

  /** The tokens of one physical line spell it. */
  lemma LineText(ts: seq<Token>, text: string)
    requires TextFrom(ts, 0) == text
    ensures TokensToSrc(ts) == text
  {
    TextFromIsTokensToSrc(ts, 0);
    assert ts[0..] == ts;
  }

  /** The tokens of four consecutive lines spell the four lines. */
  lemma SpellsLines(a: seq<Token>, b: seq<Token>, c: seq<Token>, d: seq<Token>)
    ensures TokensToSrc(a + b + c + d) == TokensToSrc(a) + TokensToSrc(b) + TokensToSrc(c) + TokensToSrc(d)
  {
    TokensToSrcConcat(a, b);
    TokensToSrcConcat(a + b, c);
    TokensToSrcConcat(a + b + c, d);
  }

  /** Every keyword has at least two letters, so a one-letter name is never a keyword. */
  lemma OneLetterNameIsNotKeyword(s: string)
    requires |s| == 1
    ensures !IsKeyword(s)
  {
    assert forall k | 0 <= k < |Keywords| :: |Keywords[k]| >= 2;
  }

  /** The tokens of `""`. */
  const OnlyLiteralEmptyStringTokens: seq<Token> := [
    Token(String, "\"\"", Some(1), Some(0)),
    Token(Newline, "", Some(1), Some(2)),
    Token(EndMarker, "", Some(2), Some(0)) ]

  lemma OnlyLiteralEmptyStringText()
    ensures TokensToSrc(OnlyLiteralEmptyStringTokens) == "\"\""
  {
    LineText(OnlyLiteralEmptyStringTokens, "\"\"");
  }

  lemma OnlyLiteralEmptyString()
    ensures TokensToSrc(OnlyLiteralEmptyStringTokens) == "\"\""
    ensures RFindStringPartsSpec(OnlyLiteralEmptyStringTokens, 0) == [0]
  {
    OnlyLiteralEmptyStringText();
  }

  /** The tokens of `b''`. */
  const OnlyLiteralBytesTokens: seq<Token> := [
    Token(String, "b''", Some(1), Some(0)),
    Token(Newline, "", Some(1), Some(3)),
    Token(EndMarker, "", Some(2), Some(0)) ]

  lemma OnlyLiteralBytesText()
    ensures TokensToSrc(OnlyLiteralBytesTokens) == "b''"
  {
    LineText(OnlyLiteralBytesTokens, "b''");
  }

  lemma OnlyLiteralBytes()
    ensures TokensToSrc(OnlyLiteralBytesTokens) == "b''"
    ensures RFindStringPartsSpec(OnlyLiteralBytesTokens, 0) == [0]
  {
    OnlyLiteralBytesText();
  }

  /** The tokens of `f''`. */
  const OnlyLiteralFormattedTokens: seq<Token> := [
    Token(String, "f''", Some(1), Some(0)),
    Token(Newline, "", Some(1), Some(3)),
    Token(EndMarker, "", Some(2), Some(0)) ]

  lemma OnlyLiteralFormattedText()
    ensures TokensToSrc(OnlyLiteralFormattedTokens) == "f''"
  {
    LineText(OnlyLiteralFormattedTokens, "f''");
  }

  lemma OnlyLiteralFormatted()
    ensures TokensToSrc(OnlyLiteralFormattedTokens) == "f''"
    ensures RFindStringPartsSpec(OnlyLiteralFormattedTokens, 0) == [0]
  {
    OnlyLiteralFormattedText();
  }

  /** The tokens of `r'''.'''`. */
  const OnlyLiteralRawTripleQuotedTokens: seq<Token> := [
    Token(String, "r'''.'''", Some(1), Some(0)),
    Token(Newline, "", Some(1), Some(8)),
    Token(EndMarker, "", Some(2), Some(0)) ]

  lemma OnlyLiteralRawTripleQuotedText()
    ensures TokensToSrc(OnlyLiteralRawTripleQuotedTokens) == "r'''.'''"
  {
    LineText(OnlyLiteralRawTripleQuotedTokens, "r'''.'''");
  }

  lemma OnlyLiteralRawTripleQuoted()
    ensures TokensToSrc(OnlyLiteralRawTripleQuotedTokens) == "r'''.'''"
    ensures RFindStringPartsSpec(OnlyLiteralRawTripleQuotedTokens, 0) == [0]
  {
    OnlyLiteralRawTripleQuotedText();
  }

  /** The tokens of `"foo" "bar"`. */
  const TwoPartsOnOneLineTokens: seq<Token> := [
    Token(String, "\"foo\"", Some(1), Some(0)),
    Token(UnimportantWs, " "),
    Token(String, "\"bar\"", Some(1), Some(6)),
    Token(Newline, "", Some(1), Some(11)),
    Token(EndMarker, "", Some(2), Some(0)) ]

  lemma TwoPartsOnOneLineText()
    ensures TokensToSrc(TwoPartsOnOneLineTokens) == "\"foo\" \"bar\""
  {
    LineText(TwoPartsOnOneLineTokens, "\"foo\" \"bar\"");
  }

  lemma TwoPartsOnOneLine()
    ensures TokensToSrc(TwoPartsOnOneLineTokens) == "\"foo\" \"bar\""
    ensures RFindStringPartsSpec(TwoPartsOnOneLineTokens, 2) == [0, 2]
  {
    TwoPartsOnOneLineText();
  }

  /** The tokens of `"""foo""" "bar"`. */
  const TripleQuotedThenPlainTokens: seq<Token> := [
    Token(String, "\"\"\"foo\"\"\"", Some(1), Some(0)),
    Token(UnimportantWs, " "),
    Token(String, "\"bar\"", Some(1), Some(10)),
    Token(Newline, "", Some(1), Some(15)),
    Token(EndMarker, "", Some(2), Some(0)) ]

  lemma TripleQuotedThenPlainText()
    ensures TokensToSrc(TripleQuotedThenPlainTokens) == "\"\"\"foo\"\"\" \"bar\""
  {
    LineText(TripleQuotedThenPlainTokens, "\"\"\"foo\"\"\" \"bar\"");
  }

  lemma TripleQuotedThenPlain()
    ensures TokensToSrc(TripleQuotedThenPlainTokens) == "\"\"\"foo\"\"\" \"bar\""
    ensures RFindStringPartsSpec(TripleQuotedThenPlainTokens, 2) == [0, 2]
  {
    TripleQuotedThenPlainText();
  }

  /** The tokens of `(\n    "foo"\n    "bar"\n)`. */
  const ParenthesizedOverLinesLine1: seq<Token> := [
    Token(Op, "(", Some(1), Some(0)),
    Token(Nl, "\n", Some(1), Some(1)) ]
  const ParenthesizedOverLinesLine2: seq<Token> := [
    Token(UnimportantWs, "    "),
    Token(String, "\"foo\"", Some(2), Some(4)),
    Token(Nl, "\n", Some(2), Some(9)) ]
  const ParenthesizedOverLinesLine3: seq<Token> := [
    Token(UnimportantWs, "    "),
    Token(String, "\"bar\"", Some(3), Some(4)),
    Token(Nl, "\n", Some(3), Some(9)) ]
  const ParenthesizedOverLinesLine4: seq<Token> := [
    Token(Op, ")", Some(4), Some(0)),
    Token(Newline, "", Some(4), Some(1)),
    Token(EndMarker, "", Some(5), Some(0)) ]
  const ParenthesizedOverLinesTokens: seq<Token> := [
    Token(Op, "(", Some(1), Some(0)),
    Token(Nl, "\n", Some(1), Some(1)),
    Token(UnimportantWs, "    "),
    Token(String, "\"foo\"", Some(2), Some(4)),
    Token(Nl, "\n", Some(2), Some(9)),
    Token(UnimportantWs, "    "),
    Token(String, "\"bar\"", Some(3), Some(4)),
    Token(Nl, "\n", Some(3), Some(9)),
    Token(Op, ")", Some(4), Some(0)),
    Token(Newline, "", Some(4), Some(1)),
    Token(EndMarker, "", Some(5), Some(0)) ]

  /** The source as the test writes it, one physical line per literal. */
  lemma ParenthesizedOverLinesText()
    ensures TokensToSrc(ParenthesizedOverLinesTokens) == "(\n" + "    \"foo\"\n" + "    \"bar\"\n" + ")"
  {
    LineText(ParenthesizedOverLinesLine1, "(\n");
    LineText(ParenthesizedOverLinesLine2, "    \"foo\"\n");
    LineText(ParenthesizedOverLinesLine3, "    \"bar\"\n");
    LineText(ParenthesizedOverLinesLine4, ")");
    assert ParenthesizedOverLinesTokens == ParenthesizedOverLinesLine1 + ParenthesizedOverLinesLine2 + ParenthesizedOverLinesLine3 + ParenthesizedOverLinesLine4;
    SpellsLines(ParenthesizedOverLinesLine1, ParenthesizedOverLinesLine2, ParenthesizedOverLinesLine3, ParenthesizedOverLinesLine4);
  }

  lemma ParenthesizedOverLines()
    ensures TokensToSrc(ParenthesizedOverLinesTokens) == "(\n" + "    \"foo\"\n" + "    \"bar\"\n" + ")"
    ensures RFindStringPartsSpec(ParenthesizedOverLinesTokens, 8) == [3, 6]
  {
    ParenthesizedOverLinesText();
  }

  /** The tokens of `print(\n    "foo"\n    "bar"\n)`. */
  const CallArgumentOverLinesLine1: seq<Token> := [
    Token(Name, "print", Some(1), Some(0)),
    Token(Op, "(", Some(1), Some(5)),
    Token(Nl, "\n", Some(1), Some(6)) ]
  const CallArgumentOverLinesLine2: seq<Token> := [
    Token(UnimportantWs, "    "),
    Token(String, "\"foo\"", Some(2), Some(4)),
    Token(Nl, "\n", Some(2), Some(9)) ]
  const CallArgumentOverLinesLine3: seq<Token> := [
    Token(UnimportantWs, "    "),
    Token(String, "\"bar\"", Some(3), Some(4)),
    Token(Nl, "\n", Some(3), Some(9)) ]
  const CallArgumentOverLinesLine4: seq<Token> := [
    Token(Op, ")", Some(4), Some(0)),
    Token(Newline, "", Some(4), Some(1)),
    Token(EndMarker, "", Some(5), Some(0)) ]
  const CallArgumentOverLinesTokens: seq<Token> := [
    Token(Name, "print", Some(1), Some(0)),
    Token(Op, "(", Some(1), Some(5)),
    Token(Nl, "\n", Some(1), Some(6)),
    Token(UnimportantWs, "    "),
    Token(String, "\"foo\"", Some(2), Some(4)),
    Token(Nl, "\n", Some(2), Some(9)),
    Token(UnimportantWs, "    "),
    Token(String, "\"bar\"", Some(3), Some(4)),
    Token(Nl, "\n", Some(3), Some(9)),
    Token(Op, ")", Some(4), Some(0)),
    Token(Newline, "", Some(4), Some(1)),
    Token(EndMarker, "", Some(5), Some(0)) ]

  /** The source as the test writes it, one physical line per literal. */
  lemma CallArgumentOverLinesText()
    ensures TokensToSrc(CallArgumentOverLinesTokens) == "print(\n" + "    \"foo\"\n" + "    \"bar\"\n" + ")"
  {
    LineText(CallArgumentOverLinesLine1, "print(\n");
    LineText(CallArgumentOverLinesLine2, "    \"foo\"\n");
    LineText(CallArgumentOverLinesLine3, "    \"bar\"\n");
    LineText(CallArgumentOverLinesLine4, ")");
    assert CallArgumentOverLinesTokens == CallArgumentOverLinesLine1 + CallArgumentOverLinesLine2 + CallArgumentOverLinesLine3 + CallArgumentOverLinesLine4;
    SpellsLines(CallArgumentOverLinesLine1, CallArgumentOverLinesLine2, CallArgumentOverLinesLine3, CallArgumentOverLinesLine4);
  }

  lemma CallArgumentOverLines()
    ensures TokensToSrc(CallArgumentOverLinesTokens) == "print(\n" + "    \"foo\"\n" + "    \"bar\"\n" + ")"
    ensures RFindStringPartsSpec(CallArgumentOverLinesTokens, 7) == [4, 7]
  {
    CallArgumentOverLinesText();
  }

  /** The tokens of `print`. */
  const NotAStringTokens: seq<Token> := [
    Token(Name, "print", Some(1), Some(0)),
    Token(Newline, "", Some(1), Some(5)),
    Token(EndMarker, "", Some(2), Some(0)) ]

  lemma NotAStringText()
    ensures TokensToSrc(NotAStringTokens) == "print"
  {
    LineText(NotAStringTokens, "print");
  }

  lemma NotAString()
    ensures TokensToSrc(NotAStringTokens) == "print"
    ensures RFindStringPartsSpec(NotAStringTokens, 0) == []
  {
    NotAStringText();
  }

  /** The tokens of `x(1, "foo")`. */
  const CommaInsideCallTokens: seq<Token> := [
    Token(Name, "x", Some(1), Some(0)),
    Token(Op, "(", Some(1), Some(1)),
    Token(Number, "1", Some(1), Some(2)),
    Token(Op, ",", Some(1), Some(3)),
    Token(UnimportantWs, " "),
    Token(String, "\"foo\"", Some(1), Some(5)),
    Token(Op, ")", Some(1), Some(10)),
    Token(Newline, "", Some(1), Some(11)),
    Token(EndMarker, "", Some(2), Some(0)) ]

  lemma CommaInsideCallText()
    ensures TokensToSrc(CommaInsideCallTokens) == "x(1, \"foo\")"
  {
    LineText(CommaInsideCallTokens, "x(1, \"foo\")");
  }

  lemma CommaInsideCall()
    ensures TokensToSrc(CommaInsideCallTokens) == "x(1, \"foo\")"
    ensures RFindStringPartsSpec(CommaInsideCallTokens, 6) == []
  {
    CommaInsideCallText();
  }

  /** The tokens of `x ("foo")`. */
  const CallWithSpaceBeforeParenTokens: seq<Token> := [
    Token(Name, "x", Some(1), Some(0)),
    Token(UnimportantWs, " "),
    Token(Op, "(", Some(1), Some(2)),
    Token(String, "\"foo\"", Some(1), Some(3)),
    Token(Op, ")", Some(1), Some(8)),
    Token(Newline, "", Some(1), Some(9)),
    Token(EndMarker, "", Some(2), Some(0)) ]

  lemma CallWithSpaceBeforeParenText()
    ensures TokensToSrc(CallWithSpaceBeforeParenTokens) == "x (\"foo\")"
  {
    LineText(CallWithSpaceBeforeParenTokens, "x (\"foo\")");
  }

  lemma CallWithSpaceBeforeParen()
    ensures TokensToSrc(CallWithSpaceBeforeParenTokens) == "x (\"foo\")"
    ensures RFindStringPartsSpec(CallWithSpaceBeforeParenTokens, 4) == []
  {
    CallWithSpaceBeforeParenText();
    OneLetterNameIsNotKeyword("x");
  }

  /** The tokens of `x[0]("foo")`. */
  const CallOfSubscriptTokens: seq<Token> := [
    Token(Name, "x", Some(1), Some(0)),
    Token(Op, "[", Some(1), Some(1)),
    Token(Number, "0", Some(1), Some(2)),
    Token(Op, "]", Some(1), Some(3)),
    Token(Op, "(", Some(1), Some(4)),
    Token(String, "\"foo\"", Some(1), Some(5)),
    Token(Op, ")", Some(1), Some(10)),
    Token(Newline, "", Some(1), Some(11)),
    Token(EndMarker, "", Some(2), Some(0)) ]

  lemma CallOfSubscriptText()
    ensures TokensToSrc(CallOfSubscriptTokens) == "x[0](\"foo\")"
  {
    LineText(CallOfSubscriptTokens, "x[0](\"foo\")");
  }

  lemma CallOfSubscript()
    ensures TokensToSrc(CallOfSubscriptTokens) == "x[0](\"foo\")"
    ensures RFindStringPartsSpec(CallOfSubscriptTokens, 6) == []
  {
    CallOfSubscriptText();
  }

  /** The tokens of `x(0)("foo")`. */
  const CallOfCallTokens: seq<Token> := [
    Token(Name, "x", Some(1), Some(0)),
    Token(Op, "(", Some(1), Some(1)),
    Token(Number, "0", Some(1), Some(2)),
    Token(Op, ")", Some(1), Some(3)),
    Token(Op, "(", Some(1), Some(4)),
    Token(String, "\"foo\"", Some(1), Some(5)),
    Token(Op, ")", Some(1), Some(10)),
    Token(Newline, "", Some(1), Some(11)),
    Token(EndMarker, "", Some(2), Some(0)) ]

  lemma CallOfCallText()
    ensures TokensToSrc(CallOfCallTokens) == "x(0)(\"foo\")"
  {
    LineText(CallOfCallTokens, "x(0)(\"foo\")");
  }

  lemma CallOfCall()
    ensures TokensToSrc(CallOfCallTokens) == "x(0)(\"foo\")"
    ensures RFindStringPartsSpec(CallOfCallTokens, 6) == []
  {
    CallOfCallText();
  }

  /** The tokens of `("foo")`. */
  const ParenthesizedTokens: seq<Token> := [
    Token(Op, "(", Some(1), Some(0)),
    Token(String, "\"foo\"", Some(1), Some(1)),
    Token(Op, ")", Some(1), Some(6)),
    Token(Newline, "", Some(1), Some(7)),
    Token(EndMarker, "", Some(2), Some(0)) ]

  lemma ParenthesizedText()
    ensures TokensToSrc(ParenthesizedTokens) == "(\"foo\")"
  {
    LineText(ParenthesizedTokens, "(\"foo\")");
  }

  lemma Parenthesized()
    ensures TokensToSrc(ParenthesizedTokens) == "(\"foo\")"
    ensures RFindStringPartsSpec(ParenthesizedTokens, 2) == [1]
  {
    ParenthesizedText();
  }

  /** The tokens of `((("foo")))`. */
  const ParenthesizedThreeDeepTokens: seq<Token> := [
    Token(Op, "(", Some(1), Some(0)),
    Token(Op, "(", Some(1), Some(1)),
    Token(Op, "(", Some(1), Some(2)),
    Token(String, "\"foo\"", Some(1), Some(3)),
    Token(Op, ")", Some(1), Some(8)),
    Token(Op, ")", Some(1), Some(9)),
    Token(Op, ")", Some(1), Some(10)),
    Token(Newline, "", Some(1), Some(11)),
    Token(EndMarker, "", Some(2), Some(0)) ]

  lemma ParenthesizedThreeDeepText()
    ensures TokensToSrc(ParenthesizedThreeDeepTokens) == "(((\"foo\")))"
  {
    LineText(ParenthesizedThreeDeepTokens, "(((\"foo\")))");
  }

  lemma ParenthesizedThreeDeep()
    ensures TokensToSrc(ParenthesizedThreeDeepTokens) == "(((\"foo\")))"
    ensures RFindStringPartsSpec(ParenthesizedThreeDeepTokens, 6) == [3]
  {
    ParenthesizedThreeDeepText();
  }

  /** The tokens of `a + ("foo")`. */
  const ParenthesizedAfterOperatorTokens: seq<Token> := [
    Token(Name, "a", Some(1), Some(0)),
    Token(UnimportantWs, " "),
    Token(Op, "+", Some(1), Some(2)),
    Token(UnimportantWs, " "),
    Token(Op, "(", Some(1), Some(4)),
    Token(String, "\"foo\"", Some(1), Some(5)),
    Token(Op, ")", Some(1), Some(10)),
    Token(Newline, "", Some(1), Some(11)),
    Token(EndMarker, "", Some(2), Some(0)) ]

  lemma ParenthesizedAfterOperatorText()
    ensures TokensToSrc(ParenthesizedAfterOperatorTokens) == "a + (\"foo\")"
  {
    LineText(ParenthesizedAfterOperatorTokens, "a + (\"foo\")");
  }

  lemma ParenthesizedAfterOperator()
    ensures TokensToSrc(ParenthesizedAfterOperatorTokens) == "a + (\"foo\")"
    ensures RFindStringPartsSpec(ParenthesizedAfterOperatorTokens, 6) == [5]
  {
    ParenthesizedAfterOperatorText();
  }

  /** The tokens of `a or ("foo")`. */
  const ParenthesizedAfterKeywordTokens: seq<Token> := [
    Token(Name, "a", Some(1), Some(0)),
    Token(UnimportantWs, " "),
    Token(Name, "or", Some(1), Some(2)),
    Token(UnimportantWs, " "),
    Token(Op, "(", Some(1), Some(5)),
    Token(String, "\"foo\"", Some(1), Some(6)),
    Token(Op, ")", Some(1), Some(11)),
    Token(Newline, "", Some(1), Some(12)),
    Token(EndMarker, "", Some(2), Some(0)) ]

  lemma ParenthesizedAfterKeywordText()
    ensures TokensToSrc(ParenthesizedAfterKeywordTokens) == "a or (\"foo\")"
  {
    LineText(ParenthesizedAfterKeywordTokens, "a or (\"foo\")");
  }

  lemma ParenthesizedAfterKeyword()
    ensures TokensToSrc(ParenthesizedAfterKeywordTokens) == "a or (\"foo\")"
    ensures RFindStringPartsSpec(ParenthesizedAfterKeywordTokens, 6) == [5]
  {
    ParenthesizedAfterKeywordText();
    assert IsKeyword("or") by { assert Keywords[27] == "or"; }
  }
}
