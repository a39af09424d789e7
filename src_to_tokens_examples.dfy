/**
 * `src_to_tokens` on small sources, given the logical tokens Python's lexer
 * reports for them.
 */
module SrcToTokensExamples {
  import opened Wrappers
  import opened Tokens
  import opened SourceLines
  import opened Reconcile

  /** The reconciliation of `toks[k..]`, starting from `st`, folded from the front. */
  function RunFrom(lines: seq<string>, st: State, toks: seq<LexToken>, k: nat): State
    decreases |toks| - k
  {
    if k >= |toks| then st else RunFrom(lines, Step(lines, st, toks[k]), toks, k + 1)
  }

  lemma {:induction false} RunFromIsRun(lines: seq<string>, toks: seq<LexToken>, k: nat)
    requires k <= |toks|
    ensures RunFrom(lines, Run(lines, toks[..k]), toks, k) == Run(lines, toks)
    decreases |toks| - k
  {
    if k == |toks| {
      assert toks[..k] == toks;
    } else {
      RunStep(lines, toks, k);
      RunFromIsRun(lines, toks, k + 1);
    }
  }

  /** `src_to_tokens` computed by front-to-back steps. */
  lemma SrcToTokensByRunFrom(src: string, lines: seq<string>, toks: seq<LexToken>)
    requires SplitLines(src) == lines
    ensures SrcToTokensSpec(src, Lexed(toks)) == Success(RunFrom(lines, State([], Pos(1, 0)), toks, 0).tokens)
  {
    RunFromIsRun(lines, toks, 0);
    assert toks[..0] == [];
  }
  /** One step of a run, known in advance, moves the front-to-back fold on by one token. */
  lemma RunFromStep(lines: seq<string>, st: State, toks: seq<LexToken>, k: nat, next: State)
    requires k < |toks| && Step(lines, st, toks[k]) == next
    ensures RunFrom(lines, st, toks, k) == RunFrom(lines, next, toks, k + 1)
  {
  }

  /*
   * The four kinds of step the examples take, each stated against the state it
   * produces, so that a concrete step is checked against its known outcome.
   */

  /** A token at the cursor that starts no split literal is appended at byte offset `off`. */
  lemma NoGapAppendTo(lines: seq<string>, st: State, t: LexToken, off: nat, next: State)
    requires t.start.line == st.last.line && t.start.col <= st.last.col
    requires !(|st.tokens| > 0 && IsSplitLiteral(st.tokens[|st.tokens| - 1], t))
    requires ByteOffset(lines, t.start) == off
    requires next == State(st.tokens + [Token(t.name, t.text, Some(t.start.line), Some(off))], t.end)
    ensures Step(lines, st, t) == next
  {
    NoGap(lines, st, t);
  }

  /** A token at the cursor that continues a split literal is glued onto the last token. */
  lemma NoGapGlueTo(lines: seq<string>, st: State, t: LexToken, next: State)
    requires t.start.line == st.last.line && t.start.col <= st.last.col
    requires |st.tokens| > 0 && IsSplitLiteral(st.tokens[|st.tokens| - 1], t)
    requires var prev := st.tokens[|st.tokens| - 1];
      next == State(st.tokens[..|st.tokens| - 1]
                    + [prev.(name := if t.name == String then String else prev.name, src := prev.src + t.text)],
                    t.end)
    ensures Step(lines, st, t) == next
  {
    NoGap(lines, st, t);
  }

  /** A token later on the cursor's line, after the whitespace `ws`. */
  lemma SameLineGapTo(lines: seq<string>, st: State, t: LexToken, ws: string, off: nat, next: State)
    requires t.start.line == st.last.line && t.start.col > st.last.col
    requires Slice(Line(lines, t.start.line), st.last.col, t.start.col) == ws
    requires ByteOffset(lines, t.start) == off
    requires next == State(st.tokens + [Token(UnimportantWs, ws)] + [Token(t.name, t.text, Some(t.start.line), Some(off))], t.end)
    ensures Step(lines, st, t) == next
  {
    SameLineGap(lines, st, t);
  }

  /** A token at the start of the next line, the cursor being at the end of its own. */
  lemma NextLineNoGapTo(lines: seq<string>, st: State, t: LexToken, next: State)
    requires t.start.line == st.last.line + 1 && t.start.col == 0
    requires SliceFrom(Line(lines, st.last.line), st.last.col) == ""
    requires !(|st.tokens| > 0 && IsSplitLiteral(st.tokens[|st.tokens| - 1], t))
    requires next == State(st.tokens + [Token(t.name, t.text, Some(t.start.line), Some(0))], t.end)
    ensures Step(lines, st, t) == next
  {
    NextLineNoGap(lines, st, t);
  }

  /** A token on the line after a backslash continuation. */
  lemma EscapedNewlineGapTo(lines: seq<string>, st: State, t: LexToken,
                            ws: string, nl: string, indent: string, next: State)
    requires t.start.line == st.last.line + 1
    requires nl == "\n" || nl == "\r\n"
    requires SliceFrom(Line(lines, st.last.line), st.last.col) == ws + "\\" + nl
    requires SliceTo(Line(lines, t.start.line), t.start.col) == indent
    requires '\\' !in ws && '\\' !in indent
    requires next == State(st.tokens + ContinuationTokens(ws, nl, indent)
                           + [Token(t.name, t.text, Some(t.start.line), Some(Utf8Length(indent)))], t.end)
    ensures Step(lines, st, t) == next
  {
    EscapedNewlineGap(lines, st, t, ws, nl, indent);
  }


  // `x = 5\n`: each lexer token at its byte offset, a whitespace token for each space.

  const SimpleSource: string := "x = 5\n"

  const SimpleLexed: seq<LexToken> := [
    LexToken(Name, "x", Pos(1, 0), Pos(1, 1)),
    LexToken(Op, "=", Pos(1, 2), Pos(1, 3)),
    LexToken(Number, "5", Pos(1, 4), Pos(1, 5)),
    LexToken(Newline, "\n", Pos(1, 5), Pos(1, 6)),
    LexToken(EndMarker, "", Pos(2, 0), Pos(2, 0)) ]

  const SimpleExpected: seq<Token> := [
    Token(Name, "x", Some(1), Some(0)),
    Token(UnimportantWs, " "),
    Token(Op, "=", Some(1), Some(2)),
    Token(UnimportantWs, " "),
    Token(Number, "5", Some(1), Some(4)),
    Token(Newline, "\n", Some(1), Some(5)),
    Token(EndMarker, "", Some(2), Some(0)) ]

  /** The reconciler's state after each lexer token. */
  const SimpleStates: seq<State> := [
    State([], Pos(1, 0)),
    State([Token(Name, "x", Some(1), Some(0))], Pos(1, 1)),
    State([Token(Name, "x", Some(1), Some(0)), Token(UnimportantWs, " "), Token(Op, "=", Some(1), Some(2))], Pos(1, 3)),
    State([Token(Name, "x", Some(1), Some(0)), Token(UnimportantWs, " "), Token(Op, "=", Some(1), Some(2)), Token(UnimportantWs, " "), Token(Number, "5", Some(1), Some(4))], Pos(1, 5)),
    State([Token(Name, "x", Some(1), Some(0)), Token(UnimportantWs, " "), Token(Op, "=", Some(1), Some(2)), Token(UnimportantWs, " "), Token(Number, "5", Some(1), Some(4)), Token(Newline, "\n", Some(1), Some(5))], Pos(1, 6)),
    State(SimpleExpected, Pos(2, 0)) ]

  lemma SimpleStep0(lines: seq<string>)
    requires lines == ["x = 5\n"]
    ensures Step(lines, SimpleStates[0], SimpleLexed[0]) == SimpleStates[1]
  {
    Utf8LengthOfAsciiPrefix("x = 5\n", 0);
    NoGapAppendTo(lines, SimpleStates[0], SimpleLexed[0], 0, SimpleStates[1]);
  }

  lemma SimpleStep1(lines: seq<string>)
    requires lines == ["x = 5\n"]
    ensures Step(lines, SimpleStates[1], SimpleLexed[1]) == SimpleStates[2]
  {
    assert Slice("x = 5\n", 1, 2) == " ";
    Utf8LengthOfAsciiPrefix("x = 5\n", 2);
    SameLineGapTo(lines, SimpleStates[1], SimpleLexed[1], " ", 2, SimpleStates[2]);
  }

  lemma SimpleStep2(lines: seq<string>)
    requires lines == ["x = 5\n"]
    ensures Step(lines, SimpleStates[2], SimpleLexed[2]) == SimpleStates[3]
  {
    assert Slice("x = 5\n", 3, 4) == " ";
    Utf8LengthOfAsciiPrefix("x = 5\n", 4);
    SameLineGapTo(lines, SimpleStates[2], SimpleLexed[2], " ", 4, SimpleStates[3]);
  }

  lemma SimpleStep3(lines: seq<string>)
    requires lines == ["x = 5\n"]
    ensures Step(lines, SimpleStates[3], SimpleLexed[3]) == SimpleStates[4]
  {
    Utf8LengthOfAsciiPrefix("x = 5\n", 5);
    NoGapAppendTo(lines, SimpleStates[3], SimpleLexed[3], 5, SimpleStates[4]);
  }

  lemma SimpleStep4(lines: seq<string>)
    requires lines == ["x = 5\n"]
    ensures Step(lines, SimpleStates[4], SimpleLexed[4]) == SimpleStates[5]
  {
    assert SliceFrom("x = 5\n", 6) == "";
    NextLineNoGapTo(lines, SimpleStates[4], SimpleLexed[4], SimpleStates[5]);
  }

  lemma SimpleLines()
    ensures SplitLines(SimpleSource) == ["x = 5\n"]
  {
    OneLine(SimpleSource);
  }

  /** `x = 5\n`: each lexer token at its byte offset, a whitespace token for each space. */
  lemma SimpleSourceTokens()
    ensures SrcToTokensSpec(SimpleSource, Lexed(SimpleLexed)) == Success(SimpleExpected)
  {
    var lines := ["x = 5\n"];
    SimpleLines();
    SrcToTokensByRunFrom(SimpleSource, lines, SimpleLexed);
    SimpleStep0(lines);
    RunFromStep(lines, SimpleStates[0], SimpleLexed, 0, SimpleStates[1]);
    SimpleStep1(lines);
    RunFromStep(lines, SimpleStates[1], SimpleLexed, 1, SimpleStates[2]);
    SimpleStep2(lines);
    RunFromStep(lines, SimpleStates[2], SimpleLexed, 2, SimpleStates[3]);
    SimpleStep3(lines);
    RunFromStep(lines, SimpleStates[3], SimpleLexed, 3, SimpleStates[4]);
    SimpleStep4(lines);
    RunFromStep(lines, SimpleStates[4], SimpleLexed, 4, SimpleStates[5]);
  }

  // A backslash continuation: whitespace, the escaped newline, then the next line's indentation.

  const EscapedNewlineSource: string := "x = \\\n    5\n"

  const EscapedNewlineLexed: seq<LexToken> := [
    LexToken(Name, "x", Pos(1, 0), Pos(1, 1)),
    LexToken(Op, "=", Pos(1, 2), Pos(1, 3)),
    LexToken(Number, "5", Pos(2, 4), Pos(2, 5)),
    LexToken(Newline, "\n", Pos(2, 5), Pos(2, 6)),
    LexToken(EndMarker, "", Pos(3, 0), Pos(3, 0)) ]

  const EscapedNewlineExpected: seq<Token> := [
    Token(Name, "x", Some(1), Some(0)),
    Token(UnimportantWs, " "),
    Token(Op, "=", Some(1), Some(2)),
    Token(UnimportantWs, " "),
    Token(EscapedNl, "\\\n"),
    Token(UnimportantWs, "    "),
    Token(Number, "5", Some(2), Some(4)),
    Token(Newline, "\n", Some(2), Some(5)),
    Token(EndMarker, "", Some(3), Some(0)) ]

  /** The reconciler's state after each lexer token. */
  const EscapedNewlineStates: seq<State> := [
    State([], Pos(1, 0)),
    State([Token(Name, "x", Some(1), Some(0))], Pos(1, 1)),
    State([Token(Name, "x", Some(1), Some(0)), Token(UnimportantWs, " "), Token(Op, "=", Some(1), Some(2))], Pos(1, 3)),
    State([Token(Name, "x", Some(1), Some(0)), Token(UnimportantWs, " "), Token(Op, "=", Some(1), Some(2)), Token(UnimportantWs, " "), Token(EscapedNl, "\\\n"), Token(UnimportantWs, "    "), Token(Number, "5", Some(2), Some(4))], Pos(2, 5)),
    State([Token(Name, "x", Some(1), Some(0)), Token(UnimportantWs, " "), Token(Op, "=", Some(1), Some(2)), Token(UnimportantWs, " "), Token(EscapedNl, "\\\n"), Token(UnimportantWs, "    "), Token(Number, "5", Some(2), Some(4)), Token(Newline, "\n", Some(2), Some(5))], Pos(2, 6)),
    State(EscapedNewlineExpected, Pos(3, 0)) ]

  lemma EscapedNewlineStep0(lines: seq<string>)
    requires lines == ["x = \\\n", "    5\n"]
    ensures Step(lines, EscapedNewlineStates[0], EscapedNewlineLexed[0]) == EscapedNewlineStates[1]
  {
    assert Line(lines, 1) == "x = \\\n" && Line(lines, 2) == "    5\n";
    Utf8LengthOfAsciiPrefix("x = \\\n", 0);
    NoGapAppendTo(lines, EscapedNewlineStates[0], EscapedNewlineLexed[0], 0, EscapedNewlineStates[1]);
  }

  lemma EscapedNewlineStep1(lines: seq<string>)
    requires lines == ["x = \\\n", "    5\n"]
    ensures Step(lines, EscapedNewlineStates[1], EscapedNewlineLexed[1]) == EscapedNewlineStates[2]
  {
    assert Line(lines, 1) == "x = \\\n" && Line(lines, 2) == "    5\n";
    assert Slice("x = \\\n", 1, 2) == " ";
    Utf8LengthOfAsciiPrefix("x = \\\n", 2);
    SameLineGapTo(lines, EscapedNewlineStates[1], EscapedNewlineLexed[1], " ", 2, EscapedNewlineStates[2]);
  }

  lemma EscapedNewlineStep2(lines: seq<string>)
    requires lines == ["x = \\\n", "    5\n"]
    ensures Step(lines, EscapedNewlineStates[2], EscapedNewlineLexed[2]) == EscapedNewlineStates[3]
  {
    assert Line(lines, 1) == "x = \\\n" && Line(lines, 2) == "    5\n";
    assert SliceFrom("x = \\\n", 3) == " " + "\\" + "\n";
    assert SliceTo("    5\n", 4) == "    ";
    Utf8LengthOfAscii("    ");
    assert "\\" + "\n" == "\\\n";
    assert ContinuationTokens(" ", "\n", "    ") == [Token(UnimportantWs, " "), Token(EscapedNl, "\\\n"), Token(UnimportantWs, "    ")];
    EscapedNewlineGapTo(lines, EscapedNewlineStates[2], EscapedNewlineLexed[2], " ", "\n", "    ", EscapedNewlineStates[3]);
  }

  lemma EscapedNewlineStep3(lines: seq<string>)
    requires lines == ["x = \\\n", "    5\n"]
    ensures Step(lines, EscapedNewlineStates[3], EscapedNewlineLexed[3]) == EscapedNewlineStates[4]
  {
    assert Line(lines, 1) == "x = \\\n" && Line(lines, 2) == "    5\n";
    Utf8LengthOfAsciiPrefix("    5\n", 5);
    NoGapAppendTo(lines, EscapedNewlineStates[3], EscapedNewlineLexed[3], 5, EscapedNewlineStates[4]);
  }

  lemma EscapedNewlineStep4(lines: seq<string>)
    requires lines == ["x = \\\n", "    5\n"]
    ensures Step(lines, EscapedNewlineStates[4], EscapedNewlineLexed[4]) == EscapedNewlineStates[5]
  {
    assert Line(lines, 1) == "x = \\\n" && Line(lines, 2) == "    5\n";
    assert SliceFrom("    5\n", 6) == "";
    NextLineNoGapTo(lines, EscapedNewlineStates[4], EscapedNewlineLexed[4], EscapedNewlineStates[5]);
  }

  lemma EscapedNewlineLines()
    ensures SplitLines(EscapedNewlineSource) == ["x = \\\n", "    5\n"]
  {
    TwoLines("x = \\\n", "    5\n");
    assert EscapedNewlineSource == "x = \\\n" + "    5\n";
  }

  /** A backslash continuation: whitespace, the escaped newline, then the next line's indentation. */
  lemma EscapedNewlineSourceTokens()
    ensures SrcToTokensSpec(EscapedNewlineSource, Lexed(EscapedNewlineLexed)) == Success(EscapedNewlineExpected)
  {
    var lines := ["x = \\\n", "    5\n"];
    EscapedNewlineLines();
    SrcToTokensByRunFrom(EscapedNewlineSource, lines, EscapedNewlineLexed);
    EscapedNewlineStep0(lines);
    RunFromStep(lines, EscapedNewlineStates[0], EscapedNewlineLexed, 0, EscapedNewlineStates[1]);
    EscapedNewlineStep1(lines);
    RunFromStep(lines, EscapedNewlineStates[1], EscapedNewlineLexed, 1, EscapedNewlineStates[2]);
    EscapedNewlineStep2(lines);
    RunFromStep(lines, EscapedNewlineStates[2], EscapedNewlineLexed, 2, EscapedNewlineStates[3]);
    EscapedNewlineStep3(lines);
    RunFromStep(lines, EscapedNewlineStates[3], EscapedNewlineLexed, 3, EscapedNewlineStates[4]);
    EscapedNewlineStep4(lines);
    RunFromStep(lines, EscapedNewlineStates[4], EscapedNewlineLexed, 4, EscapedNewlineStates[5]);
  }

  // A backslash continuation with nothing before the backslash: no empty whitespace token.

  const EscapedNewlineNoLeftWsSource: string := "x =\\\n    5\n"

  const EscapedNewlineNoLeftWsLexed: seq<LexToken> := [
    LexToken(Name, "x", Pos(1, 0), Pos(1, 1)),
    LexToken(Op, "=", Pos(1, 2), Pos(1, 3)),
    LexToken(Number, "5", Pos(2, 4), Pos(2, 5)),
    LexToken(Newline, "\n", Pos(2, 5), Pos(2, 6)),
    LexToken(EndMarker, "", Pos(3, 0), Pos(3, 0)) ]

  const EscapedNewlineNoLeftWsExpected: seq<Token> := [
    Token(Name, "x", Some(1), Some(0)),
    Token(UnimportantWs, " "),
    Token(Op, "=", Some(1), Some(2)),
    Token(EscapedNl, "\\\n"),
    Token(UnimportantWs, "    "),
    Token(Number, "5", Some(2), Some(4)),
    Token(Newline, "\n", Some(2), Some(5)),
    Token(EndMarker, "", Some(3), Some(0)) ]

  /** The reconciler's state after each lexer token. */
  const EscapedNewlineNoLeftWsStates: seq<State> := [
    State([], Pos(1, 0)),
    State([Token(Name, "x", Some(1), Some(0))], Pos(1, 1)),
    State([Token(Name, "x", Some(1), Some(0)), Token(UnimportantWs, " "), Token(Op, "=", Some(1), Some(2))], Pos(1, 3)),
    State([Token(Name, "x", Some(1), Some(0)), Token(UnimportantWs, " "), Token(Op, "=", Some(1), Some(2)), Token(EscapedNl, "\\\n"), Token(UnimportantWs, "    "), Token(Number, "5", Some(2), Some(4))], Pos(2, 5)),
    State([Token(Name, "x", Some(1), Some(0)), Token(UnimportantWs, " "), Token(Op, "=", Some(1), Some(2)), Token(EscapedNl, "\\\n"), Token(UnimportantWs, "    "), Token(Number, "5", Some(2), Some(4)), Token(Newline, "\n", Some(2), Some(5))], Pos(2, 6)),
    State(EscapedNewlineNoLeftWsExpected, Pos(3, 0)) ]

  lemma EscapedNewlineNoLeftWsStep0(lines: seq<string>)
    requires lines == ["x =\\\n", "    5\n"]
    ensures Step(lines, EscapedNewlineNoLeftWsStates[0], EscapedNewlineNoLeftWsLexed[0]) == EscapedNewlineNoLeftWsStates[1]
  {
    assert Line(lines, 1) == "x =\\\n" && Line(lines, 2) == "    5\n";
    Utf8LengthOfAsciiPrefix("x =\\\n", 0);
    NoGapAppendTo(lines, EscapedNewlineNoLeftWsStates[0], EscapedNewlineNoLeftWsLexed[0], 0, EscapedNewlineNoLeftWsStates[1]);
  }

  lemma EscapedNewlineNoLeftWsStep1(lines: seq<string>)
    requires lines == ["x =\\\n", "    5\n"]
    ensures Step(lines, EscapedNewlineNoLeftWsStates[1], EscapedNewlineNoLeftWsLexed[1]) == EscapedNewlineNoLeftWsStates[2]
  {
    assert Line(lines, 1) == "x =\\\n" && Line(lines, 2) == "    5\n";
    assert Slice("x =\\\n", 1, 2) == " ";
    Utf8LengthOfAsciiPrefix("x =\\\n", 2);
    SameLineGapTo(lines, EscapedNewlineNoLeftWsStates[1], EscapedNewlineNoLeftWsLexed[1], " ", 2, EscapedNewlineNoLeftWsStates[2]);
  }

  lemma EscapedNewlineNoLeftWsStep2(lines: seq<string>)
    requires lines == ["x =\\\n", "    5\n"]
    ensures Step(lines, EscapedNewlineNoLeftWsStates[2], EscapedNewlineNoLeftWsLexed[2]) == EscapedNewlineNoLeftWsStates[3]
  {
    assert Line(lines, 1) == "x =\\\n" && Line(lines, 2) == "    5\n";
    assert SliceFrom("x =\\\n", 3) == "" + "\\" + "\n";
    assert SliceTo("    5\n", 4) == "    ";
    Utf8LengthOfAscii("    ");
    assert "\\" + "\n" == "\\\n";
    assert ContinuationTokens("", "\n", "    ") == [Token(EscapedNl, "\\\n"), Token(UnimportantWs, "    ")];
    EscapedNewlineGapTo(lines, EscapedNewlineNoLeftWsStates[2], EscapedNewlineNoLeftWsLexed[2], "", "\n", "    ", EscapedNewlineNoLeftWsStates[3]);
  }

  lemma EscapedNewlineNoLeftWsStep3(lines: seq<string>)
    requires lines == ["x =\\\n", "    5\n"]
    ensures Step(lines, EscapedNewlineNoLeftWsStates[3], EscapedNewlineNoLeftWsLexed[3]) == EscapedNewlineNoLeftWsStates[4]
  {
    assert Line(lines, 1) == "x =\\\n" && Line(lines, 2) == "    5\n";
    Utf8LengthOfAsciiPrefix("    5\n", 5);
    NoGapAppendTo(lines, EscapedNewlineNoLeftWsStates[3], EscapedNewlineNoLeftWsLexed[3], 5, EscapedNewlineNoLeftWsStates[4]);
  }

  lemma EscapedNewlineNoLeftWsStep4(lines: seq<string>)
    requires lines == ["x =\\\n", "    5\n"]
    ensures Step(lines, EscapedNewlineNoLeftWsStates[4], EscapedNewlineNoLeftWsLexed[4]) == EscapedNewlineNoLeftWsStates[5]
  {
    assert Line(lines, 1) == "x =\\\n" && Line(lines, 2) == "    5\n";
    assert SliceFrom("    5\n", 6) == "";
    NextLineNoGapTo(lines, EscapedNewlineNoLeftWsStates[4], EscapedNewlineNoLeftWsLexed[4], EscapedNewlineNoLeftWsStates[5]);
  }

  lemma EscapedNewlineNoLeftWsLines()
    ensures SplitLines(EscapedNewlineNoLeftWsSource) == ["x =\\\n", "    5\n"]
  {
    TwoLines("x =\\\n", "    5\n");
    assert EscapedNewlineNoLeftWsSource == "x =\\\n" + "    5\n";
  }

  /** A backslash continuation with nothing before the backslash: no empty whitespace token. */
  lemma EscapedNewlineNoLeftWsSourceTokens()
    ensures SrcToTokensSpec(EscapedNewlineNoLeftWsSource, Lexed(EscapedNewlineNoLeftWsLexed)) == Success(EscapedNewlineNoLeftWsExpected)
  {
    var lines := ["x =\\\n", "    5\n"];
    EscapedNewlineNoLeftWsLines();
    SrcToTokensByRunFrom(EscapedNewlineNoLeftWsSource, lines, EscapedNewlineNoLeftWsLexed);
    EscapedNewlineNoLeftWsStep0(lines);
    RunFromStep(lines, EscapedNewlineNoLeftWsStates[0], EscapedNewlineNoLeftWsLexed, 0, EscapedNewlineNoLeftWsStates[1]);
    EscapedNewlineNoLeftWsStep1(lines);
    RunFromStep(lines, EscapedNewlineNoLeftWsStates[1], EscapedNewlineNoLeftWsLexed, 1, EscapedNewlineNoLeftWsStates[2]);
    EscapedNewlineNoLeftWsStep2(lines);
    RunFromStep(lines, EscapedNewlineNoLeftWsStates[2], EscapedNewlineNoLeftWsLexed, 2, EscapedNewlineNoLeftWsStates[3]);
    EscapedNewlineNoLeftWsStep3(lines);
    RunFromStep(lines, EscapedNewlineNoLeftWsStates[3], EscapedNewlineNoLeftWsLexed, 3, EscapedNewlineNoLeftWsStates[4]);
    EscapedNewlineNoLeftWsStep4(lines);
    RunFromStep(lines, EscapedNewlineNoLeftWsStates[4], EscapedNewlineNoLeftWsLexed, 4, EscapedNewlineNoLeftWsStates[5]);
  }

  // A backslash continuation ending in `\r\n`, kept whole in the escaped newline.

  const EscapedNewlineWindowsSource: string := "x = \\\r\n    5\r\n"

  const EscapedNewlineWindowsLexed: seq<LexToken> := [
    LexToken(Name, "x", Pos(1, 0), Pos(1, 1)),
    LexToken(Op, "=", Pos(1, 2), Pos(1, 3)),
    LexToken(Number, "5", Pos(2, 4), Pos(2, 5)),
    LexToken(Newline, "\r\n", Pos(2, 5), Pos(2, 7)),
    LexToken(EndMarker, "", Pos(3, 0), Pos(3, 0)) ]

  const EscapedNewlineWindowsExpected: seq<Token> := [
    Token(Name, "x", Some(1), Some(0)),
    Token(UnimportantWs, " "),
    Token(Op, "=", Some(1), Some(2)),
    Token(UnimportantWs, " "),
    Token(EscapedNl, "\\\r\n"),
    Token(UnimportantWs, "    "),
    Token(Number, "5", Some(2), Some(4)),
    Token(Newline, "\r\n", Some(2), Some(5)),
    Token(EndMarker, "", Some(3), Some(0)) ]

  /** The reconciler's state after each lexer token. */
  const EscapedNewlineWindowsStates: seq<State> := [
    State([], Pos(1, 0)),
    State([Token(Name, "x", Some(1), Some(0))], Pos(1, 1)),
    State([Token(Name, "x", Some(1), Some(0)), Token(UnimportantWs, " "), Token(Op, "=", Some(1), Some(2))], Pos(1, 3)),
    State([Token(Name, "x", Some(1), Some(0)), Token(UnimportantWs, " "), Token(Op, "=", Some(1), Some(2)), Token(UnimportantWs, " "), Token(EscapedNl, "\\\r\n"), Token(UnimportantWs, "    "), Token(Number, "5", Some(2), Some(4))], Pos(2, 5)),
    State([Token(Name, "x", Some(1), Some(0)), Token(UnimportantWs, " "), Token(Op, "=", Some(1), Some(2)), Token(UnimportantWs, " "), Token(EscapedNl, "\\\r\n"), Token(UnimportantWs, "    "), Token(Number, "5", Some(2), Some(4)), Token(Newline, "\r\n", Some(2), Some(5))], Pos(2, 7)),
    State(EscapedNewlineWindowsExpected, Pos(3, 0)) ]

  lemma EscapedNewlineWindowsStep0(lines: seq<string>)
    requires lines == ["x = \\\r\n", "    5\r\n"]
    ensures Step(lines, EscapedNewlineWindowsStates[0], EscapedNewlineWindowsLexed[0]) == EscapedNewlineWindowsStates[1]
  {
    assert Line(lines, 1) == "x = \\\r\n" && Line(lines, 2) == "    5\r\n";
    Utf8LengthOfAsciiPrefix("x = \\\r\n", 0);
    NoGapAppendTo(lines, EscapedNewlineWindowsStates[0], EscapedNewlineWindowsLexed[0], 0, EscapedNewlineWindowsStates[1]);
  }

  lemma EscapedNewlineWindowsStep1(lines: seq<string>)
    requires lines == ["x = \\\r\n", "    5\r\n"]
    ensures Step(lines, EscapedNewlineWindowsStates[1], EscapedNewlineWindowsLexed[1]) == EscapedNewlineWindowsStates[2]
  {
    assert Line(lines, 1) == "x = \\\r\n" && Line(lines, 2) == "    5\r\n";
    assert Slice("x = \\\r\n", 1, 2) == " ";
    Utf8LengthOfAsciiPrefix("x = \\\r\n", 2);
    SameLineGapTo(lines, EscapedNewlineWindowsStates[1], EscapedNewlineWindowsLexed[1], " ", 2, EscapedNewlineWindowsStates[2]);
  }

  lemma EscapedNewlineWindowsStep2(lines: seq<string>)
    requires lines == ["x = \\\r\n", "    5\r\n"]
    ensures Step(lines, EscapedNewlineWindowsStates[2], EscapedNewlineWindowsLexed[2]) == EscapedNewlineWindowsStates[3]
  {
    assert Line(lines, 1) == "x = \\\r\n" && Line(lines, 2) == "    5\r\n";
    assert SliceFrom("x = \\\r\n", 3) == " " + "\\" + "\r\n";
    assert SliceTo("    5\r\n", 4) == "    ";
    Utf8LengthOfAscii("    ");
    assert "\\" + "\r\n" == "\\\r\n";
    assert ContinuationTokens(" ", "\r\n", "    ") == [Token(UnimportantWs, " "), Token(EscapedNl, "\\\r\n"), Token(UnimportantWs, "    ")];
    EscapedNewlineGapTo(lines, EscapedNewlineWindowsStates[2], EscapedNewlineWindowsLexed[2], " ", "\r\n", "    ", EscapedNewlineWindowsStates[3]);
  }

  lemma EscapedNewlineWindowsStep3(lines: seq<string>)
    requires lines == ["x = \\\r\n", "    5\r\n"]
    ensures Step(lines, EscapedNewlineWindowsStates[3], EscapedNewlineWindowsLexed[3]) == EscapedNewlineWindowsStates[4]
  {
    assert Line(lines, 1) == "x = \\\r\n" && Line(lines, 2) == "    5\r\n";
    Utf8LengthOfAsciiPrefix("    5\r\n", 5);
    NoGapAppendTo(lines, EscapedNewlineWindowsStates[3], EscapedNewlineWindowsLexed[3], 5, EscapedNewlineWindowsStates[4]);
  }

  lemma EscapedNewlineWindowsStep4(lines: seq<string>)
    requires lines == ["x = \\\r\n", "    5\r\n"]
    ensures Step(lines, EscapedNewlineWindowsStates[4], EscapedNewlineWindowsLexed[4]) == EscapedNewlineWindowsStates[5]
  {
    assert Line(lines, 1) == "x = \\\r\n" && Line(lines, 2) == "    5\r\n";
    assert SliceFrom("    5\r\n", 7) == "";
    NextLineNoGapTo(lines, EscapedNewlineWindowsStates[4], EscapedNewlineWindowsLexed[4], EscapedNewlineWindowsStates[5]);
  }

  lemma EscapedNewlineWindowsLines()
    ensures SplitLines(EscapedNewlineWindowsSource) == ["x = \\\r\n", "    5\r\n"]
  {
    TwoLines("x = \\\r\n", "    5\r\n");
    assert EscapedNewlineWindowsSource == "x = \\\r\n" + "    5\r\n";
  }

  /** A backslash continuation ending in `\r\n`, kept whole in the escaped newline. */
  lemma EscapedNewlineWindowsSourceTokens()
    ensures SrcToTokensSpec(EscapedNewlineWindowsSource, Lexed(EscapedNewlineWindowsLexed)) == Success(EscapedNewlineWindowsExpected)
  {
    var lines := ["x = \\\r\n", "    5\r\n"];
    EscapedNewlineWindowsLines();
    SrcToTokensByRunFrom(EscapedNewlineWindowsSource, lines, EscapedNewlineWindowsLexed);
    EscapedNewlineWindowsStep0(lines);
    RunFromStep(lines, EscapedNewlineWindowsStates[0], EscapedNewlineWindowsLexed, 0, EscapedNewlineWindowsStates[1]);
    EscapedNewlineWindowsStep1(lines);
    RunFromStep(lines, EscapedNewlineWindowsStates[1], EscapedNewlineWindowsLexed, 1, EscapedNewlineWindowsStates[2]);
    EscapedNewlineWindowsStep2(lines);
    RunFromStep(lines, EscapedNewlineWindowsStates[2], EscapedNewlineWindowsLexed, 2, EscapedNewlineWindowsStates[3]);
    EscapedNewlineWindowsStep3(lines);
    RunFromStep(lines, EscapedNewlineWindowsStates[3], EscapedNewlineWindowsLexed, 3, EscapedNewlineWindowsStates[4]);
    EscapedNewlineWindowsStep4(lines);
    RunFromStep(lines, EscapedNewlineWindowsStates[4], EscapedNewlineWindowsLexed, 4, EscapedNewlineWindowsStates[5]);
  }

  // `0755\n`, which Python 3's lexer reads as two numbers: one `NUMBER` token, spelled as written.

  const OctalLiteralSource: string := "0755\n"

  const OctalLiteralLexed: seq<LexToken> := [
    LexToken(Number, "0", Pos(1, 0), Pos(1, 1)),
    LexToken(Number, "755", Pos(1, 1), Pos(1, 4)),
    LexToken(Newline, "\n", Pos(1, 4), Pos(1, 5)),
    LexToken(EndMarker, "", Pos(2, 0), Pos(2, 0)) ]

  const OctalLiteralExpected: seq<Token> := [
    Token(Number, "0755", Some(1), Some(0)),
    Token(Newline, "\n", Some(1), Some(4)),
    Token(EndMarker, "", Some(2), Some(0)) ]

  /** The reconciler's state after each lexer token. */
  const OctalLiteralStates: seq<State> := [
    State([], Pos(1, 0)),
    State([Token(Number, "0", Some(1), Some(0))], Pos(1, 1)),
    State([Token(Number, "0755", Some(1), Some(0))], Pos(1, 4)),
    State([Token(Number, "0755", Some(1), Some(0)), Token(Newline, "\n", Some(1), Some(4))], Pos(1, 5)),
    State(OctalLiteralExpected, Pos(2, 0)) ]

  lemma OctalLiteralStep0(lines: seq<string>)
    requires lines == ["0755\n"]
    ensures Step(lines, OctalLiteralStates[0], OctalLiteralLexed[0]) == OctalLiteralStates[1]
  {
    Utf8LengthOfAsciiPrefix("0755\n", 0);
    NoGapAppendTo(lines, OctalLiteralStates[0], OctalLiteralLexed[0], 0, OctalLiteralStates[1]);
  }

  lemma OctalLiteralStep1(lines: seq<string>)
    requires lines == ["0755\n"]
    ensures Step(lines, OctalLiteralStates[1], OctalLiteralLexed[1]) == OctalLiteralStates[2]
  {
    assert "0" + "755" == "0755";
    NoGapGlueTo(lines, OctalLiteralStates[1], OctalLiteralLexed[1], OctalLiteralStates[2]);
  }

  lemma OctalLiteralStep2(lines: seq<string>)
    requires lines == ["0755\n"]
    ensures Step(lines, OctalLiteralStates[2], OctalLiteralLexed[2]) == OctalLiteralStates[3]
  {
    Utf8LengthOfAsciiPrefix("0755\n", 4);
    NoGapAppendTo(lines, OctalLiteralStates[2], OctalLiteralLexed[2], 4, OctalLiteralStates[3]);
  }

  lemma OctalLiteralStep3(lines: seq<string>)
    requires lines == ["0755\n"]
    ensures Step(lines, OctalLiteralStates[3], OctalLiteralLexed[3]) == OctalLiteralStates[4]
  {
    assert SliceFrom("0755\n", 5) == "";
    NextLineNoGapTo(lines, OctalLiteralStates[3], OctalLiteralLexed[3], OctalLiteralStates[4]);
  }

  lemma OctalLiteralLines()
    ensures SplitLines(OctalLiteralSource) == ["0755\n"]
  {
    OneLine(OctalLiteralSource);
  }

  /** `0755\n`, which Python 3's lexer reads as two numbers: one `NUMBER` token, spelled as written. */
  lemma OctalLiteralSourceTokens()
    ensures SrcToTokensSpec(OctalLiteralSource, Lexed(OctalLiteralLexed)) == Success(OctalLiteralExpected)
  {
    var lines := ["0755\n"];
    OctalLiteralLines();
    SrcToTokensByRunFrom(OctalLiteralSource, lines, OctalLiteralLexed);
    OctalLiteralStep0(lines);
    RunFromStep(lines, OctalLiteralStates[0], OctalLiteralLexed, 0, OctalLiteralStates[1]);
    OctalLiteralStep1(lines);
    RunFromStep(lines, OctalLiteralStates[1], OctalLiteralLexed, 1, OctalLiteralStates[2]);
    OctalLiteralStep2(lines);
    RunFromStep(lines, OctalLiteralStates[2], OctalLiteralLexed, 2, OctalLiteralStates[3]);
    OctalLiteralStep3(lines);
    RunFromStep(lines, OctalLiteralStates[3], OctalLiteralLexed, 3, OctalLiteralStates[4]);
  }

  // `123l\n`, a Python 2 long literal whose suffix Python 3's lexer reads as a name: one `NUMBER` token, spelled as written.

  const LongLowerLSource: string := "123l\n"

  const LongLowerLLexed: seq<LexToken> := [
    LexToken(Number, "123", Pos(1, 0), Pos(1, 3)),
    LexToken(Name, "l", Pos(1, 3), Pos(1, 4)),
    LexToken(Newline, "\n", Pos(1, 4), Pos(1, 5)),
    LexToken(EndMarker, "", Pos(2, 0), Pos(2, 0)) ]

  const LongLowerLExpected: seq<Token> := [
    Token(Number, "123l", Some(1), Some(0)),
    Token(Newline, "\n", Some(1), Some(4)),
    Token(EndMarker, "", Some(2), Some(0)) ]

  /** The reconciler's state after each lexer token. */
  const LongLowerLStates: seq<State> := [
    State([], Pos(1, 0)),
    State([Token(Number, "123", Some(1), Some(0))], Pos(1, 3)),
    State([Token(Number, "123l", Some(1), Some(0))], Pos(1, 4)),
    State([Token(Number, "123l", Some(1), Some(0)), Token(Newline, "\n", Some(1), Some(4))], Pos(1, 5)),
    State(LongLowerLExpected, Pos(2, 0)) ]

  lemma LongLowerLStep0(lines: seq<string>)
    requires lines == ["123l\n"]
    ensures Step(lines, LongLowerLStates[0], LongLowerLLexed[0]) == LongLowerLStates[1]
  {
    Utf8LengthOfAsciiPrefix("123l\n", 0);
    NoGapAppendTo(lines, LongLowerLStates[0], LongLowerLLexed[0], 0, LongLowerLStates[1]);
  }

  lemma LongLowerLStep1(lines: seq<string>)
    requires lines == ["123l\n"]
    ensures Step(lines, LongLowerLStates[1], LongLowerLLexed[1]) == LongLowerLStates[2]
  {
    assert "123" + "l" == "123l";
    NoGapGlueTo(lines, LongLowerLStates[1], LongLowerLLexed[1], LongLowerLStates[2]);
  }

  lemma LongLowerLStep2(lines: seq<string>)
    requires lines == ["123l\n"]
    ensures Step(lines, LongLowerLStates[2], LongLowerLLexed[2]) == LongLowerLStates[3]
  {
    Utf8LengthOfAsciiPrefix("123l\n", 4);
    NoGapAppendTo(lines, LongLowerLStates[2], LongLowerLLexed[2], 4, LongLowerLStates[3]);
  }

  lemma LongLowerLStep3(lines: seq<string>)
    requires lines == ["123l\n"]
    ensures Step(lines, LongLowerLStates[3], LongLowerLLexed[3]) == LongLowerLStates[4]
  {
    assert SliceFrom("123l\n", 5) == "";
    NextLineNoGapTo(lines, LongLowerLStates[3], LongLowerLLexed[3], LongLowerLStates[4]);
  }

  lemma LongLowerLLines()
    ensures SplitLines(LongLowerLSource) == ["123l\n"]
  {
    OneLine(LongLowerLSource);
  }

  /** `123l\n`, a Python 2 long literal whose suffix Python 3's lexer reads as a name: one `NUMBER` token, spelled as written. */
  lemma LongLowerLSourceTokens()
    ensures SrcToTokensSpec(LongLowerLSource, Lexed(LongLowerLLexed)) == Success(LongLowerLExpected)
  {
    var lines := ["123l\n"];
    LongLowerLLines();
    SrcToTokensByRunFrom(LongLowerLSource, lines, LongLowerLLexed);
    LongLowerLStep0(lines);
    RunFromStep(lines, LongLowerLStates[0], LongLowerLLexed, 0, LongLowerLStates[1]);
    LongLowerLStep1(lines);
    RunFromStep(lines, LongLowerLStates[1], LongLowerLLexed, 1, LongLowerLStates[2]);
    LongLowerLStep2(lines);
    RunFromStep(lines, LongLowerLStates[2], LongLowerLLexed, 2, LongLowerLStates[3]);
    LongLowerLStep3(lines);
    RunFromStep(lines, LongLowerLStates[3], LongLowerLLexed, 3, LongLowerLStates[4]);
  }

  // `123L\n`, a Python 2 long literal whose suffix Python 3's lexer reads as a name: one `NUMBER` token, spelled as written.

  const LongUpperLSource: string := "123L\n"

  const LongUpperLLexed: seq<LexToken> := [
    LexToken(Number, "123", Pos(1, 0), Pos(1, 3)),
    LexToken(Name, "L", Pos(1, 3), Pos(1, 4)),
    LexToken(Newline, "\n", Pos(1, 4), Pos(1, 5)),
    LexToken(EndMarker, "", Pos(2, 0), Pos(2, 0)) ]

  const LongUpperLExpected: seq<Token> := [
    Token(Number, "123L", Some(1), Some(0)),
    Token(Newline, "\n", Some(1), Some(4)),
    Token(EndMarker, "", Some(2), Some(0)) ]

  /** The reconciler's state after each lexer token. */
  const LongUpperLStates: seq<State> := [
    State([], Pos(1, 0)),
    State([Token(Number, "123", Some(1), Some(0))], Pos(1, 3)),
    State([Token(Number, "123L", Some(1), Some(0))], Pos(1, 4)),
    State([Token(Number, "123L", Some(1), Some(0)), Token(Newline, "\n", Some(1), Some(4))], Pos(1, 5)),
    State(LongUpperLExpected, Pos(2, 0)) ]

  lemma LongUpperLStep0(lines: seq<string>)
    requires lines == ["123L\n"]
    ensures Step(lines, LongUpperLStates[0], LongUpperLLexed[0]) == LongUpperLStates[1]
  {
    Utf8LengthOfAsciiPrefix("123L\n", 0);
    NoGapAppendTo(lines, LongUpperLStates[0], LongUpperLLexed[0], 0, LongUpperLStates[1]);
  }

  lemma LongUpperLStep1(lines: seq<string>)
    requires lines == ["123L\n"]
    ensures Step(lines, LongUpperLStates[1], LongUpperLLexed[1]) == LongUpperLStates[2]
  {
    assert "123" + "L" == "123L";
    NoGapGlueTo(lines, LongUpperLStates[1], LongUpperLLexed[1], LongUpperLStates[2]);
  }

  lemma LongUpperLStep2(lines: seq<string>)
    requires lines == ["123L\n"]
    ensures Step(lines, LongUpperLStates[2], LongUpperLLexed[2]) == LongUpperLStates[3]
  {
    Utf8LengthOfAsciiPrefix("123L\n", 4);
    NoGapAppendTo(lines, LongUpperLStates[2], LongUpperLLexed[2], 4, LongUpperLStates[3]);
  }

  lemma LongUpperLStep3(lines: seq<string>)
    requires lines == ["123L\n"]
    ensures Step(lines, LongUpperLStates[3], LongUpperLLexed[3]) == LongUpperLStates[4]
  {
    assert SliceFrom("123L\n", 5) == "";
    NextLineNoGapTo(lines, LongUpperLStates[3], LongUpperLLexed[3], LongUpperLStates[4]);
  }

  lemma LongUpperLLines()
    ensures SplitLines(LongUpperLSource) == ["123L\n"]
  {
    OneLine(LongUpperLSource);
  }

  /** `123L\n`, a Python 2 long literal whose suffix Python 3's lexer reads as a name: one `NUMBER` token, spelled as written. */
  lemma LongUpperLSourceTokens()
    ensures SrcToTokensSpec(LongUpperLSource, Lexed(LongUpperLLexed)) == Success(LongUpperLExpected)
  {
    var lines := ["123L\n"];
    LongUpperLLines();
    SrcToTokensByRunFrom(LongUpperLSource, lines, LongUpperLLexed);
    LongUpperLStep0(lines);
    RunFromStep(lines, LongUpperLStates[0], LongUpperLLexed, 0, LongUpperLStates[1]);
    LongUpperLStep1(lines);
    RunFromStep(lines, LongUpperLStates[1], LongUpperLLexed, 1, LongUpperLStates[2]);
    LongUpperLStep2(lines);
    RunFromStep(lines, LongUpperLStates[2], LongUpperLLexed, 2, LongUpperLStates[3]);
    LongUpperLStep3(lines);
    RunFromStep(lines, LongUpperLStates[3], LongUpperLLexed, 3, LongUpperLStates[4]);
  }


  // A string literal with a prefix the lexer does not know, such as Python 2's
  // `ur`: whether the lexer reads the prefix as a name or as part of the
  // string, the result is one `STRING` token spelled as written.

  function PrefixedSource(p: string): string
  {
    p + "'foo'\n"
  }

  /** The lexer reads the prefix as a name and the quoted part as a string. */
  function PrefixSplitLexed(p: string): seq<LexToken>
  {
    [ LexToken(Name, p, Pos(1, 0), Pos(1, |p|)),
      LexToken(String, "'foo'", Pos(1, |p|), Pos(1, |p| + 5)),
      LexToken(Newline, "\n", Pos(1, |p| + 5), Pos(1, |p| + 6)),
      LexToken(EndMarker, "", Pos(2, 0), Pos(2, 0)) ]
  }

  /** The lexer knows the prefix and reads one string. */
  function PrefixWholeLexed(p: string): seq<LexToken>
  {
    [ LexToken(String, p + "'foo'", Pos(1, 0), Pos(1, |p| + 5)),
      LexToken(Newline, "\n", Pos(1, |p| + 5), Pos(1, |p| + 6)),
      LexToken(EndMarker, "", Pos(2, 0), Pos(2, 0)) ]
  }

  function PrefixedTokens(p: string): seq<Token>
  {
    [ Token(String, p + "'foo'", Some(1), Some(0)),
      Token(Newline, "\n", Some(1), Some(|p| + 5)),
      Token(EndMarker, "", Some(2), Some(0)) ]
  }

  /** The states both lexings pass through once the string is complete. */
  function PrefixedStates(p: string): seq<State>
  {
    [ State([], Pos(1, 0)),
      State([Token(String, p + "'foo'", Some(1), Some(0))], Pos(1, |p| + 5)),
      State([Token(String, p + "'foo'", Some(1), Some(0)), Token(Newline, "\n", Some(1), Some(|p| + 5))], Pos(1, |p| + 6)),
      State(PrefixedTokens(p), Pos(2, 0)) ]
  }

  lemma PrefixedLine(p: string)
    requires IsStringPrefix(p)
    ensures SplitLines(PrefixedSource(p)) == [PrefixedSource(p)]
    ensures forall k :: 0 <= k < |PrefixedSource(p)| ==> PrefixedSource(p)[k] as int < 0x80
  {
    var s := PrefixedSource(p);
    assert forall k :: 0 <= k < |p| ==> s[k] == p[k];
    assert forall k :: |p| <= k < |s| ==> s[k] == "'foo'\n"[k - |p|];
    OneLine(s);
  }

  /** The newline and the end marker follow the completed string alike in both lexings. */
  lemma PrefixedTail(p: string, lines: seq<string>, toks: seq<LexToken>, k: nat)
    requires IsStringPrefix(p) && lines == [PrefixedSource(p)]
    requires k + 2 == |toks| && toks[k..] == PrefixSplitLexed(p)[2..]
    ensures RunFrom(lines, PrefixedStates(p)[1], toks, k) == PrefixedStates(p)[3]
  {
    var s, st := PrefixedSource(p), PrefixedStates(p);
    PrefixedLine(p);
    Utf8LengthOfAsciiPrefix(s, |p| + 5);
    assert toks[k] == LexToken(Newline, "\n", Pos(1, |p| + 5), Pos(1, |p| + 6));
    NoGapAppendTo(lines, st[1], toks[k], |p| + 5, st[2]);
    RunFromStep(lines, st[1], toks, k, st[2]);
    assert SliceFrom(s, |p| + 6) == "";
    assert toks[k + 1] == LexToken(EndMarker, "", Pos(2, 0), Pos(2, 0));
    NextLineNoGapTo(lines, st[2], toks[k + 1], st[3]);
    RunFromStep(lines, st[2], toks, k + 1, st[3]);
  }

  /** The prefix read as a name is glued onto the string that follows it. */
  lemma PrefixSplitSourceTokens(p: string)
    requires p != "" && IsStringPrefix(p)
    ensures SrcToTokensSpec(PrefixedSource(p), Lexed(PrefixSplitLexed(p))) == Success(PrefixedTokens(p))
  {
    var s, toks, st := PrefixedSource(p), PrefixSplitLexed(p), PrefixedStates(p);
    var lines := [s];
    PrefixedLine(p);
    SrcToTokensByRunFrom(s, lines, toks);
    Utf8LengthOfAsciiPrefix(s, 0);
    var named := State([Token(Name, p, Some(1), Some(0))], Pos(1, |p|));
    NoGapAppendTo(lines, st[0], toks[0], 0, named);
    RunFromStep(lines, st[0], toks, 0, named);
    NoGapGlueTo(lines, named, toks[1], st[1]);
    RunFromStep(lines, named, toks, 1, st[1]);
    PrefixedTail(p, lines, toks, 2);
  }

  /** A lexer that knows the prefix gives the same tokens. */
  lemma PrefixWholeSourceTokens(p: string)
    requires IsStringPrefix(p)
    ensures SrcToTokensSpec(PrefixedSource(p), Lexed(PrefixWholeLexed(p))) == Success(PrefixedTokens(p))
  {
    var s, toks, st := PrefixedSource(p), PrefixWholeLexed(p), PrefixedStates(p);
    var lines := [s];
    PrefixedLine(p);
    SrcToTokensByRunFrom(s, lines, toks);
    Utf8LengthOfAsciiPrefix(s, 0);
    NoGapAppendTo(lines, st[0], toks[0], 0, st[1]);
    RunFromStep(lines, st[0], toks, 0, st[1]);
    PrefixedTail(p, lines, toks, 1);
  }

  /**
   * The prefixes of the parametrised string-prefix cases, each lexed as
   * Python 3 lexes it: `f`, `rb`, `F` and `RB` begin a `STRING`, while `ur`
   * and `UR` are not Python 3 prefixes and come out as a `NAME` before it.
   */
  lemma StringPrefixCases()
    ensures forall p | p in ["f", "rb", "F", "RB"] ::
      SrcToTokensSpec(PrefixedSource(p), Lexed(PrefixWholeLexed(p))) == Success(PrefixedTokens(p))
    ensures forall p | p in ["ur", "UR"] ::
      SrcToTokensSpec(PrefixedSource(p), Lexed(PrefixSplitLexed(p))) == Success(PrefixedTokens(p))
  {
    forall p | p in ["f", "rb", "F", "RB"]
      ensures SrcToTokensSpec(PrefixedSource(p), Lexed(PrefixWholeLexed(p))) == Success(PrefixedTokens(p))
    {
      PrefixWholeSourceTokens(p);
    }
    forall p | p in ["ur", "UR"]
      ensures SrcToTokensSpec(PrefixedSource(p), Lexed(PrefixSplitLexed(p))) == Success(PrefixedTokens(p))
    {
      PrefixSplitSourceTokens(p);
    }
  }
}
