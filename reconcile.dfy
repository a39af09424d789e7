/**
 * `src_to_tokens`: the gap reconciler.  The lexer's logical tokens come with
 * start and end positions; everything between the end of one and the start of
 * the next is turned into synthetic `UNIMPORTANT_WS` and `ESCAPED_NL` tokens,
 * so that the token texts concatenate back to the source.
 */
module Reconcile {
  import opened Wrappers
  import opened Tokens
  import opened Patterns
  import opened SourceLines

  /** A logical token as the lexer reports it: category, text, start and end. */
  datatype LexToken = LexToken(name: Category, text: string, start: Pos, end: Pos)

  /** What the lexer yields for a source: its tokens, or the error it raised. */
  datatype LexOutput = Lexed(tokens: seq<LexToken>) | LexError(message: string)

  /** The lexer's failure, passed on to the caller of `src_to_tokens`. */
  datatype TokenizeError = TokenizeError(message: string)

  /** The tokens emitted so far and the end of the last lexer token. */
  datatype State = State(tokens: seq<Token>, last: Pos)

  /**
   * The text of a gap that crosses lines: the rest of the last token's line,
   * the whole lines in between and the start of the next token's line.
   */
  function GapText(lines: seq<string>, last: Pos, start: Pos): string
    requires last.line < start.line
  {
    SliceFrom(Line(lines, last.line), last.col)
      + LinesBetween(lines, last.line + 1, start.line)
      + (if start.col > 0 then SliceTo(Line(lines, start.line), start.col) else "")
  }

  /** A text in which no backslash starts an escaped newline. */
  predicate NoEscapedNewline(s: string)
  {
    Search(EscapedNewline, s).None?
  }

  /**
   * No escaped newline starts at `j` of a prefix `ws` of `s` when none starts at
   * `j` of `s` itself and `s` goes on with a backslash after `ws`.
   */
  lemma PrefixMatchNone(s: string, ws: string, j: nat)
    requires |ws| < |s| && ws == s[..|ws|] && s[|ws|] == '\\' && j < |ws|
    requires MatchAt(EscapedNewline, s, j).None?
    ensures MatchAt(EscapedNewline, ws, j).None?
  {
    assert ws[j] == s[j];
    if j + 1 < |ws| {
      assert ws[j + 1] == s[j + 1];
      if j + 2 < |ws| {
        assert ws[j + 2] == s[j + 2];
      }
    }
  }

  /** Around the first escaped newline: text free of escaped newlines, the escaped newline, the rest. */
  lemma EscapedNewlinePartition(s: string)
    requires Search(EscapedNewline, s).Some?
    ensures var (ws, nl, rest) := RePartition(EscapedNewline, s);
      && NoEscapedNewline(ws) && IsEscapedNewline(nl) && |rest| < |s|
      && (nl == "\\\r" ==> rest == "" || rest[0] != '\n')
  {
    var (ws, nl, rest) := RePartition(EscapedNewline, s);
    assert s[|ws|] == '\\';
    assert ws == s[..|ws|];
    if nl == "\\\r" && rest != "" {
      assert s[|ws| + 1] == '\r' && s[|ws| + 2] == rest[0];
    }
    forall j | 0 <= j <= |ws| ensures MatchAt(EscapedNewline, ws, j).None? {
      if j < |ws| {
        PrefixMatchNone(s, ws, j);
      }
    }
  }

  /** The tokens of one escaped newline and the whitespace before it. */
  function EscapedNewlineTokens(ws: string, nl: string): (r: seq<Token>)
    ensures TokensToSrc(r) == ws + nl
  {
    if ws == "" then
      [Token(EscapedNl, nl)]
    else
      var r := [Token(UnimportantWs, ws), Token(EscapedNl, nl)];
      assert r[..1] == [Token(UnimportantWs, ws)];
      assert TokensToSrc(r[..1]) == ws by {
        assert r[..1][..0] == [];
      }
      r
  }

  /**
   * The tokens of a multi-line gap: each escaped newline becomes an `ESCAPED_NL`
   * token, and each non-empty run between them an `UNIMPORTANT_WS` token.
   */
  function SplitEscapedNewlines(s: string): (r: seq<Token>)
    ensures TokensToSrc(r) == s
    decreases |s|
  {
    if Search(EscapedNewline, s).None? then
      if s == "" then [] else [Token(UnimportantWs, s)]
    else
      var (ws, nl, rest) := RePartition(EscapedNewline, s);
      EscapedNewlinePartition(s);
      var head := EscapedNewlineTokens(ws, nl);
      var tail := SplitEscapedNewlines(rest);
      TokensToSrcConcat(head, tail);
      head + tail
  }

  /** Unfolding `SplitEscapedNewlines` once, at the first escaped newline. */
  lemma SplitAtFirstEscapedNewline(s: string)
    requires Search(EscapedNewline, s).Some?
    ensures var (ws, nl, rest) := RePartition(EscapedNewline, s);
      && |rest| < |s|
      && SplitEscapedNewlines(s) == EscapedNewlineTokens(ws, nl) + SplitEscapedNewlines(rest)
  {
    EscapedNewlinePartition(s);
  }

  /** `SplitAtFirstEscapedNewline` with the three parts of the partition named. */
  lemma SplitAtPartition(s: string, ws: string, nl: string, rest: string)
    requires Search(EscapedNewline, s).Some?
    requires RePartition(EscapedNewline, s) == (ws, nl, rest)
    ensures |rest| < |s|
    ensures SplitEscapedNewlines(s) == EscapedNewlineTokens(ws, nl) + SplitEscapedNewlines(rest)
  {
    SplitAtFirstEscapedNewline(s);
  }

  /** A gap without an escaped newline is one whitespace token, or none when it is empty. */
  lemma SplitWithoutEscapedNewline(s: string)
    requires NoEscapedNewline(s)
    ensures SplitEscapedNewlines(s) == if s == "" then [] else [Token(UnimportantWs, s)]
  {
  }

  /**
   * Every token of a gap is synthetic and has no position; every `ESCAPED_NL` is a
   * backslash and a line terminator; every `UNIMPORTANT_WS` is non-empty and holds
   * no escaped newline.
   */
  predicate GapTokensShape(r: seq<Token>)
  {
    && AllSynthetic(r)
    && (forall k :: 0 <= k < |r| ==>
      && (r[k].name == EscapedNl ==> IsEscapedNewline(r[k].src))
      && (r[k].name == UnimportantWs ==> r[k].src != "" && NoEscapedNewline(r[k].src)))
    && (forall k :: 0 < k < |r| ==> Adjacent(r[k - 1], r[k]))
  }

  /**
   * Two consecutive gap tokens: never two whitespace tokens in a row, and an
   * escaped `\r` is never followed by the `\n` that would have completed it.
   */
  predicate Adjacent(a: Token, b: Token)
  {
    && !(a.name == UnimportantWs && b.name == UnimportantWs)
    && (a.name == EscapedNl && a.src == "\\\r" ==> b.src == "" || b.src[0] != '\n')
  }

  /** Synthetic tokens without a position. */
  predicate AllSynthetic(r: seq<Token>)
  {
    forall k :: 0 <= k < |r| ==>
      r[k].name.IsSynthetic() && r[k].line.None? && r[k].utf8ByteOffset.None?
  }

  lemma GapTokensShapeConcat(a: seq<Token>, b: seq<Token>)
    requires GapTokensShape(a) && GapTokensShape(b)
    requires a == [] || b == [] || Adjacent(a[|a| - 1], b[0])
    ensures GapTokensShape(a + b)
  {
    forall k | |a| <= k < |a + b| ensures (a + b)[k] == b[k - |a|] {
    }
  }

  /** The first token of an escaped newline's tokens starts with the character the text starts with. */
  lemma FirstOfEscapedNewlineTokens(s: string, ws: string, nl: string, rest: string)
    requires s == ws + nl + rest && IsEscapedNewline(nl)
    ensures s != "" && EscapedNewlineTokens(ws, nl)[0].src != ""
    ensures EscapedNewlineTokens(ws, nl)[0].src[0] == s[0]
  {
    if ws == "" {
      assert s[0] == nl[0];
    } else {
      assert s[0] == ws[0];
    }
  }

  /** The first gap token starts with the gap's first character. */
  lemma SplitEscapedNewlinesFirst(s: string)
    ensures var r := SplitEscapedNewlines(s);
      r != [] ==> s != "" && r[0].src != "" && r[0].src[0] == s[0]
  {
    if Search(EscapedNewline, s).Some? {
      var (ws, nl, rest) := RePartition(EscapedNewline, s);
      SplitAtPartition(s, ws, nl, rest);
      var head := EscapedNewlineTokens(ws, nl);
      assert SplitEscapedNewlines(s)[0] == head[0];
      FirstOfEscapedNewlineTokens(s, ws, nl, rest);
    }
  }

  lemma EscapedNewlineTokensShape(ws: string, nl: string)
    requires NoEscapedNewline(ws) && IsEscapedNewline(nl)
    ensures GapTokensShape(EscapedNewlineTokens(ws, nl))
  {
    if ws == "" {
      assert EscapedNewlineTokens(ws, nl) == [Token(EscapedNl, nl)];
    } else {
      assert EscapedNewlineTokens(ws, nl) == [Token(UnimportantWs, ws), Token(EscapedNl, nl)];
    }
  }

  /** The tokens of a gap have the shape `GapTokensShape` describes. */
  lemma {:induction false} SplitEscapedNewlinesShape(s: string)
    ensures GapTokensShape(SplitEscapedNewlines(s))
    decreases |s|
  {
    if Search(EscapedNewline, s).Some? {
      var (ws, nl, rest) := RePartition(EscapedNewline, s);
      EscapedNewlinePartition(s);
      SplitEscapedNewlinesShape(rest);
      SplitEscapedNewlinesFirst(rest);
      var head, tail := EscapedNewlineTokens(ws, nl), SplitEscapedNewlines(rest);
      assert SplitEscapedNewlines(s) == head + tail;
      EscapedNewlineTokensShape(ws, nl);
      assert head[|head| - 1] == Token(EscapedNl, nl);
      GapTokensShapeConcat(head, tail);
    } else if s != "" {
      assert SplitEscapedNewlines(s) == [Token(UnimportantWs, s)];
    }
  }

  /** The synthetic tokens `src_to_tokens` emits for the gap between `last` and `start`. */
  function GapTokens(lines: seq<string>, last: Pos, start: Pos): seq<Token>
  {
    if start.line > last.line then
      SplitEscapedNewlines(GapText(lines, last, start))
    else if start.col > last.col then
      [Token(UnimportantWs, Slice(Line(lines, start.line), last.col, start.col))]
    else
      []
  }

  /** The UTF-8 byte offset of a position within its line. */
  function ByteOffset(lines: seq<string>, p: Pos): nat
  {
    Utf8Length(SliceTo(Line(lines, p.line), p.col))
  }

  /** Letters that may prefix a string literal, in either case. */
  predicate IsStringPrefix(s: string)
  {
    forall k :: 0 <= k < |s| ==> s[k] in "bfruBFRU"
  }

  /**
   * The lexer split a literal whose spelling it does not know: a string whose
   * prefix it read as a name, a legacy octal read as two numbers, or a long
   * integer whose `l`/`L` suffix it read as a name.
   */
  predicate IsSplitLiteral(prev: Token, t: LexToken)
  {
    || (prev.name == Name && t.name == String && IsStringPrefix(prev.src))
    || (prev.name == Number && t.name == Number)
    || (prev.name == Number && t.name == Name && (t.text == "l" || t.text == "L"))
  }

  /**
   * Appends a lexer token, or, when it continues a split literal, glues it onto
   * the previous token, which keeps its position.
   */
  function AppendLogical(tokens: seq<Token>, t: LexToken, byteOffset: nat): (r: seq<Token>)
    ensures |tokens| > 0 && IsSplitLiteral(tokens[|tokens| - 1], t) ==>
      && |r| == |tokens|
      && r[..|r| - 1] == tokens[..|tokens| - 1]
      && var prev, glued := tokens[|tokens| - 1], r[|r| - 1];
         && glued.src == prev.src + t.text
         && glued.line == prev.line && glued.utf8ByteOffset == prev.utf8ByteOffset
         && glued.name == (if t.name == String then String else prev.name)
    ensures !(|tokens| > 0 && IsSplitLiteral(tokens[|tokens| - 1], t)) ==>
      r == tokens + [Token(t.name, t.text, Some(t.start.line), Some(byteOffset))]
  {
    if |tokens| > 0 && IsSplitLiteral(tokens[|tokens| - 1], t) then
      var prev := tokens[|tokens| - 1];
      var name := if t.name == String then String else prev.name;
      tokens[..|tokens| - 1] + [prev.(name := name, src := prev.src + t.text)]
    else
      tokens + [Token(t.name, t.text, Some(t.start.line), Some(byteOffset))]
  }

  /** One step of the reconciliation: the gap before `t`, then `t` itself. */
  function Step(lines: seq<string>, st: State, t: LexToken): State
  {
    var withGap := st.tokens + GapTokens(lines, st.last, t.start);
    State(AppendLogical(withGap, t, ByteOffset(lines, t.start)), t.end)
  }

  /** The reconciliation of a prefix of the lexer's tokens, starting at line 1, column 0. */
  function Run(lines: seq<string>, toks: seq<LexToken>): State
  {
    if toks == [] then State([], Pos(1, 0))
    else Step(lines, Run(lines, toks[..|toks| - 1]), toks[|toks| - 1])
  }

  /** What `src_to_tokens(src)` returns when the lexer yields `lexed` for `src`. */
  function SrcToTokensSpec(src: string, lexed: LexOutput): Result<seq<Token>, TokenizeError>
  {
    match lexed
    case LexError(message) => Failure(TokenizeError(message))
    case Lexed(toks) => Success(Run(SplitLines(src), toks).tokens)
  }

  /** The end of the lexer token before index `k`, or line 1, column 0 for the first. */
  function Cursor(toks: seq<LexToken>, k: nat): Pos
    requires k <= |toks|
  {
    if k == 0 then Pos(1, 0) else toks[k - 1].end
  }

  /**
   * `t` follows the cursor and its text is the source between its start and end:
   * what the lexer guarantees of every token it yields.
   */
  predicate WellPlaced(lines: seq<string>, cursor: Pos, t: LexToken)
  {
    && InRange(lines, cursor) && InRange(lines, t.start) && InRange(lines, t.end)
    && (t.start.line > cursor.line || (t.start.line == cursor.line && t.start.col >= cursor.col))
    && Flat(lines, t.start) <= Flat(lines, t.end) <= |Concat(lines)|
    && t.text == Concat(lines)[Flat(lines, t.start)..Flat(lines, t.end)]
  }

  /** The `k`th lexer token is well placed after the one before it. */
  predicate PlacedAt(lines: seq<string>, toks: seq<LexToken>, k: nat)
    requires k < |toks|
  {
    WellPlaced(lines, Cursor(toks, k), toks[k])
  }

  /** The lexer's tokens for `src`: each well placed, the last ending where the source ends. */
  predicate LexedFrom(src: string, toks: seq<LexToken>)
  {
    var lines := SplitLines(src);
    && (forall k :: 0 <= k < |toks| ==> PlacedAt(lines, toks, k))
    && InRange(lines, Cursor(toks, |toks|))
    && Flat(lines, Cursor(toks, |toks|)) == |src|
  }

  /** The lexer reports no synthetic category. */
  predicate AllLogical(toks: seq<LexToken>)
  {
    forall k :: 0 <= k < |toks| ==> !toks[k].name.IsSynthetic()
  }

  /** The gap text is exactly the source between the two positions. */
  lemma GapTextInSource(lines: seq<string>, last: Pos, start: Pos)
    requires InRange(lines, last) && InRange(lines, start) && last.line < start.line
    ensures Flat(lines, last) <= Flat(lines, start) <= |Concat(lines)|
    ensures GapText(lines, last, start) == Concat(lines)[Flat(lines, last)..Flat(lines, start)]
  {
    var src := Concat(lines);
    RestOfLineInText(lines, last);
    LinesBetweenInText(lines, last.line + 1, start.line);
    StartOfLineInText(lines, start);
    var a, b, c, d := Flat(lines, last), LineStart(lines, last.line + 1),
                      LineStart(lines, start.line), Flat(lines, start);
    var x, y, z := SliceFrom(Line(lines, last.line), last.col),
                   LinesBetween(lines, last.line + 1, start.line),
                   (if start.col > 0 then SliceTo(Line(lines, start.line), start.col) else "");
    assert z == src[c..d];
    AdjacentSlices(src, a, b, c);
    AdjacentSlices(src, a, c, d);
  }

  /** The synthetic tokens of a gap concatenate to the source between the two positions. */
  lemma GapTokensInSource(lines: seq<string>, last: Pos, start: Pos)
    requires InRange(lines, last) && InRange(lines, start)
    requires start.line > last.line || (start.line == last.line && start.col >= last.col)
    ensures Flat(lines, last) <= Flat(lines, start) <= |Concat(lines)|
    ensures TokensToSrc(GapTokens(lines, last, start))
         == Concat(lines)[Flat(lines, last)..Flat(lines, start)]
  {
    if start.line > last.line {
      GapTextInSource(lines, last, start);
    } else {
      SliceOfLineInText(lines, start.line, last.col, start.col);
    }
  }

  /** Appending a lexer token, glued or not, adds exactly its text. */
  lemma AppendLogicalText(tokens: seq<Token>, t: LexToken, byteOffset: nat)
    ensures TokensToSrc(AppendLogical(tokens, t, byteOffset)) == TokensToSrc(tokens) + t.text
  {
    var r := AppendLogical(tokens, t, byteOffset);
    if |tokens| > 0 && IsSplitLiteral(tokens[|tokens| - 1], t) {
      var init := tokens[..|tokens| - 1];
      assert tokens == init + [tokens[|tokens| - 1]];
      assert r == init + [r[|r| - 1]];
      TokensToSrcConcat(init, [tokens[|tokens| - 1]]);
      TokensToSrcConcat(init, [r[|r| - 1]]);
    } else {
      TokensToSrcConcat(tokens, [Token(t.name, t.text, Some(t.start.line), Some(byteOffset))]);
    }
  }

  /** One step extends the serialized prefix of the source from the cursor to the token's end. */
  lemma StepRoundTrip(lines: seq<string>, st: State, t: LexToken)
    requires WellPlaced(lines, st.last, t)
    requires Flat(lines, st.last) <= |Concat(lines)|
    requires TokensToSrc(st.tokens) == Concat(lines)[..Flat(lines, st.last)]
    ensures Step(lines, st, t).last == t.end
    ensures TokensToSrc(Step(lines, st, t).tokens) == Concat(lines)[..Flat(lines, t.end)]
  {
    var src := Concat(lines);
    var gap := GapTokens(lines, st.last, t.start);
    GapTokensInSource(lines, st.last, t.start);
    TokensToSrcConcat(st.tokens, gap);
    AppendLogicalText(st.tokens + gap, t, ByteOffset(lines, t.start));
    var a, b, c := Flat(lines, st.last), Flat(lines, t.start), Flat(lines, t.end);
    AdjacentSlices(src, 0, a, b);
    AdjacentSlices(src, 0, b, c);
    assert src[..a] == src[0..a] && src[..b] == src[0..b] && src[..c] == src[0..c];
  }

  /** The round-trip invariant after the first `k` lexer tokens. */
  predicate SpelledUpTo(lines: seq<string>, toks: seq<LexToken>, k: nat)
    requires k <= |toks|
  {
    && Run(lines, toks[..k]).last == Cursor(toks, k)
    && InRange(lines, Cursor(toks, k)) && Flat(lines, Cursor(toks, k)) <= |Concat(lines)|
    && TokensToSrc(Run(lines, toks[..k]).tokens) == Concat(lines)[..Flat(lines, Cursor(toks, k))]
  }

  /** Before any lexer token, nothing is spelled and the cursor is at the start. */
  lemma SpelledUpToStart(lines: seq<string>, toks: seq<LexToken>)
    ensures SpelledUpTo(lines, toks, 0)
  {
    assert toks[..0] == [];
    assert Flat(lines, Pos(1, 0)) == 0;
  }

  /** A well-placed `k`th lexer token carries the round-trip invariant from `k` to `k + 1` tokens. */
  lemma SpelledUpToNext(lines: seq<string>, toks: seq<LexToken>, k: nat)
    requires k < |toks|
    requires SpelledUpTo(lines, toks, k) && PlacedAt(lines, toks, k)
    ensures SpelledUpTo(lines, toks, k + 1)
  {
    var st, t := Run(lines, toks[..k]), toks[k];
    RunStep(lines, toks, k);
    StepRoundTrip(lines, st, t);
  }

  /** After `k` well-placed lexer tokens, the tokens emitted serialize to the source up to the cursor. */
  lemma {:induction false} RunRoundTrip(lines: seq<string>, toks: seq<LexToken>, k: nat)
    requires k <= |toks|
    requires forall j :: 0 <= j < k ==> PlacedAt(lines, toks, j)
    ensures SpelledUpTo(lines, toks, k)
  {
    if k == 0 {
      SpelledUpToStart(lines, toks);
    } else {
      RunRoundTrip(lines, toks, k - 1);
      assert PlacedAt(lines, toks, k - 1);
      SpelledUpToNext(lines, toks, k - 1);
    }
  }

  /** The round trip: `tokens_to_src(src_to_tokens(src)) == src` for every lexer output for `src`. */
  lemma RoundTrip(src: string, toks: seq<LexToken>)
    requires LexedFrom(src, toks)
    ensures SrcToTokensSpec(src, Lexed(toks)).Success?
    ensures TokensToSrc(SrcToTokensSpec(src, Lexed(toks)).value) == src
  {
    var lines := SplitLines(src);
    RunRoundTrip(lines, toks, |toks|);
    assert toks[..|toks|] == toks;
  }

  /** Gap tokens are synthetic and have no position. */
  lemma GapTokensSynthetic(lines: seq<string>, last: Pos, start: Pos)
    ensures AllSynthetic(GapTokens(lines, last, start))
  {
    if start.line > last.line {
      SplitEscapedNewlinesShape(GapText(lines, last, start));
    }
  }

  /** Synthetic, position-less tokens keep the position rule. */
  lemma AppendSyntheticPositions(tokens: seq<Token>, gap: seq<Token>)
    requires PositionsConsistent(tokens) && AllSynthetic(gap)
    ensures PositionsConsistent(tokens + gap)
  {
    var r := tokens + gap;
    forall k | 0 <= k < |r|
      ensures (r[k].name.IsSynthetic() <==> r[k].line.None?)
           && (r[k].line.None? <==> r[k].utf8ByteOffset.None?)
    {
      if k < |tokens| {
        assert r[k] == tokens[k];
      } else {
        assert r[k] == gap[k - |tokens|];
      }
    }
  }

  /** Appending or gluing a lexer token keeps the position rule. */
  lemma AppendLogicalPositions(tokens: seq<Token>, t: LexToken, byteOffset: nat)
    requires PositionsConsistent(tokens) && !t.name.IsSynthetic()
    ensures PositionsConsistent(AppendLogical(tokens, t, byteOffset))
  {
    var r := AppendLogical(tokens, t, byteOffset);
    forall k | 0 <= k < |r|
      ensures (r[k].name.IsSynthetic() <==> r[k].line.None?)
           && (r[k].line.None? <==> r[k].utf8ByteOffset.None?)
    {
      if k < |r| - 1 {
        assert r[k] == r[..|r| - 1][k];
        assert r[k] == tokens[k];
      }
    }
  }

  /** Gap tokens have no position, and neither appending nor gluing a lexer token breaks the rule. */
  lemma StepPositions(lines: seq<string>, st: State, t: LexToken)
    requires PositionsConsistent(st.tokens) && !t.name.IsSynthetic()
    ensures PositionsConsistent(Step(lines, st, t).tokens)
  {
    var gap := GapTokens(lines, st.last, t.start);
    GapTokensSynthetic(lines, st.last, t.start);
    AppendSyntheticPositions(st.tokens, gap);
    AppendLogicalPositions(st.tokens + gap, t, ByteOffset(lines, t.start));
  }

  /** Synthetic tokens have no position and lexer tokens have one, at every step. */
  lemma {:induction false} RunPositions(lines: seq<string>, toks: seq<LexToken>)
    requires AllLogical(toks)
    ensures PositionsConsistent(Run(lines, toks).tokens)
  {
    if toks != [] {
      var init := toks[..|toks| - 1];
      assert AllLogical(init) by {
        assert forall k :: 0 <= k < |init| ==> init[k] == toks[k];
      }
      RunPositions(lines, init);
      StepPositions(lines, Run(lines, init), toks[|toks| - 1]);
    }
  }

  /** Text without a backslash holds no escaped newline. */
  lemma NoBackslashNoEscapedNewline(s: string)
    requires '\\' !in s
    ensures NoEscapedNewline(s)
  {
    forall j | 0 <= j <= |s| ensures MatchAt(EscapedNewline, s, j).None? {
      if j < |s| {
        assert s[j] != '\\';
      }
    }
  }

  /** In `ws + "\\" + nl + indent` the first escaped newline is the backslash after `ws`. */
  lemma FirstEscapedNewline(ws: string, nl: string, indent: string)
    requires nl == "\n" || nl == "\r\n"
    requires '\\' !in ws
    ensures var gap := ws + "\\" + nl + indent;
      && Search(EscapedNewline, gap) == Some(|ws|)
      && RePartition(EscapedNewline, gap) == (ws, "\\" + nl, indent)
  {
    var gap := ws + "\\" + nl + indent;
    assert gap[|ws|] == '\\';
    if nl == "\n" {
      assert gap[|ws| + 1] == '\n';
    } else {
      assert gap[|ws| + 1] == '\r' && gap[|ws| + 2] == '\n';
    }
    assert MatchAt(EscapedNewline, gap, |ws|) == Some(|nl| + 1);
    forall j | 0 <= j < |ws| ensures MatchAt(EscapedNewline, gap, j).None? {
      assert gap[j] == ws[j];
    }
    assert Search(EscapedNewline, gap) == Some(|ws|);
    var (w, n, rest) := RePartition(EscapedNewline, gap);
    assert |w| == |ws| && |n| == |nl| + 1;
    assert gap[..|ws|] == ws;
    assert gap[|ws|..|ws| + |nl| + 1] == "\\" + nl;
    assert gap[|ws| + |nl| + 1..] == indent;
  }

  /**
   * The tokens of a gap that crosses one backslash continuation: whitespace
   * before the backslash (if any), the escaped newline, then the indentation of
   * the next line (if any).
   */
  function ContinuationTokens(ws: string, nl: string, indent: string): seq<Token>
  {
    (if ws == "" then [] else [Token(UnimportantWs, ws)])
      + [Token(EscapedNl, "\\" + nl)]
      + (if indent == "" then [] else [Token(UnimportantWs, indent)])
  }

  /** `ContinuationTokens` is the escaped newline's tokens followed by those of the indentation. */
  lemma ContinuationTokensParts(ws: string, nl: string, indent: string)
    ensures ContinuationTokens(ws, nl, indent)
         == EscapedNewlineTokens(ws, "\\" + nl)
          + (if indent == "" then [] else [Token(UnimportantWs, indent)])
  {
  }

  /**
   * Splitting a gap that crosses one backslash continuation: whitespace
   * before the backslash (if any), exactly the escaped newline, then the
   * indentation of the next line (if any).
   */
  lemma SplitOneEscapedNewline(ws: string, nl: string, indent: string)
    requires nl == "\n" || nl == "\r\n"
    requires '\\' !in ws && '\\' !in indent
    ensures SplitEscapedNewlines(ws + "\\" + nl + indent)
         == ContinuationTokens(ws, nl, indent)
  {
    var gap := ws + "\\" + nl + indent;
    FirstEscapedNewline(ws, nl, indent);
    SplitAtPartition(gap, ws, "\\" + nl, indent);
    NoBackslashNoEscapedNewline(indent);
    SplitWithoutEscapedNewline(indent);
    ContinuationTokensParts(ws, nl, indent);
  }

  /** The gap between a position just before a backslash continuation and the next line. */
  lemma ContinuationGap(lines: seq<string>, last: Pos, start: Pos,
                        ws: string, nl: string, indent: string)
    requires start.line == last.line + 1
    requires nl == "\n" || nl == "\r\n"
    requires SliceFrom(Line(lines, last.line), last.col) == ws + "\\" + nl
    requires SliceTo(Line(lines, start.line), start.col) == indent
    requires '\\' !in ws && '\\' !in indent
    ensures GapTokens(lines, last, start) == ContinuationTokens(ws, nl, indent)
  {
    assert LinesBetween(lines, last.line + 1, start.line) == "";
    assert GapText(lines, last, start) == ws + "\\" + nl + indent;
    SplitOneEscapedNewline(ws, nl, indent);
  }

  /**
   * A lexer token that follows a synthetic token is appended as it is, at its
   * start line and at the UTF-8 byte offset of its start column.
   */
  lemma StepAfterSynthetic(lines: seq<string>, st: State, t: LexToken)
    requires var withGap := st.tokens + GapTokens(lines, st.last, t.start);
      withGap != [] && withGap[|withGap| - 1].name.IsSynthetic()
    ensures Step(lines, st, t)
         == State(st.tokens + GapTokens(lines, st.last, t.start)
                    + [Token(t.name, t.text, Some(t.start.line), Some(ByteOffset(lines, t.start)))],
                  t.end)
  {
  }

  /**
   * A gap that crosses one backslash continuation, followed by the next lexer
   * token: the gap's tokens as `ContinuationTokens` gives them, then the
   * token itself on the next line at the byte length of the indentation.
   */
  lemma EscapedNewlineGap(lines: seq<string>, st: State, t: LexToken,
                          ws: string, nl: string, indent: string)
    requires t.start.line == st.last.line + 1
    requires nl == "\n" || nl == "\r\n"
    requires SliceFrom(Line(lines, st.last.line), st.last.col) == ws + "\\" + nl
    requires SliceTo(Line(lines, t.start.line), t.start.col) == indent
    requires '\\' !in ws && '\\' !in indent
    ensures Step(lines, st, t).last == t.end
    ensures Step(lines, st, t).tokens
         == st.tokens + ContinuationTokens(ws, nl, indent)
          + [Token(t.name, t.text, Some(t.start.line), Some(Utf8Length(indent)))]
  {
    ContinuationGap(lines, st.last, t.start, ws, nl, indent);
    var withGap := st.tokens + ContinuationTokens(ws, nl, indent);
    assert withGap[|withGap| - 1].name.IsSynthetic();
    StepAfterSynthetic(lines, st, t);
  }

  /**
   * A token later on the cursor's line: one whitespace token holding the
   * columns in between, then the token at the byte offset of its column.
   */
  lemma SameLineGap(lines: seq<string>, st: State, t: LexToken)
    requires t.start.line == st.last.line && t.start.col > st.last.col
    ensures Step(lines, st, t)
         == State(st.tokens + [Token(UnimportantWs, Slice(Line(lines, t.start.line), st.last.col, t.start.col))]
                    + [Token(t.name, t.text, Some(t.start.line), Some(ByteOffset(lines, t.start)))],
                  t.end)
  {
    StepAfterSynthetic(lines, st, t);
  }

  /** A token at the cursor: no gap, and the token is appended or glued. */
  lemma NoGap(lines: seq<string>, st: State, t: LexToken)
    requires t.start.line == st.last.line && t.start.col <= st.last.col
    ensures Step(lines, st, t) == State(AppendLogical(st.tokens, t, ByteOffset(lines, t.start)), t.end)
  {
    assert st.tokens + GapTokens(lines, st.last, t.start) == st.tokens;
  }

  /**
   * A token at the start of the next line when the cursor is at the end of its
   * line: no gap, and the token is appended or glued at byte offset 0.
   */
  lemma NextLineNoGap(lines: seq<string>, st: State, t: LexToken)
    requires t.start.line == st.last.line + 1 && t.start.col == 0
    requires SliceFrom(Line(lines, st.last.line), st.last.col) == ""
    ensures Step(lines, st, t) == State(AppendLogical(st.tokens, t, 0), t.end)
  {
    assert GapText(lines, st.last, t.start) == "";
    assert MatchAt(EscapedNewline, "", 0).None?;
    assert st.tokens + GapTokens(lines, st.last, t.start) == st.tokens;
  }

  /** `Run` takes one more lexer token with one more `Step`. */
  lemma RunStep(lines: seq<string>, toks: seq<LexToken>, k: nat)
    requires k < |toks|
    ensures Run(lines, toks[..k + 1]) == Step(lines, Run(lines, toks[..k]), toks[k])
  {
    assert toks[..k + 1][..k] == toks[..k];
  }

  /** Emitting the tokens up to the first escaped newline leaves those of the rest to emit. */
  lemma EmitFirstEscapedNewline(tokens: seq<Token>, s: string, ws: string, nl: string, rest: string)
    requires Search(EscapedNewline, s).Some?
    requires RePartition(EscapedNewline, s) == (ws, nl, rest)
    ensures |rest| < |s|
    ensures tokens + EscapedNewlineTokens(ws, nl) + SplitEscapedNewlines(rest) == tokens + SplitEscapedNewlines(s)
  {
    SplitAtPartition(s, ws, nl, rest);
  }

  /** Emits the whitespace before an escaped newline (when there is any) and the escaped newline. */
  method AppendEscapedNewline(tokens: seq<Token>, ws: string, nl: string) returns (r: seq<Token>)
    ensures r == tokens + EscapedNewlineTokens(ws, nl)
  {
    r := tokens;
    if ws != "" {
      r := r + [Token(UnimportantWs, ws)];
    }
    r := r + [Token(EscapedNl, nl)];
  }

  /**
   * One round of the multi-line gap loop: partitions the remaining gap at its
   * first escaped newline, emits the part up to it, and returns what follows.
   */
  method AppendFirstEscapedNewline(tokens: seq<Token>, newtok: string) returns (r: seq<Token>, rest: string)
    requires Search(EscapedNewline, newtok).Some?
    ensures |rest| < |newtok|
    ensures r + SplitEscapedNewlines(rest) == tokens + SplitEscapedNewlines(newtok)
  {
    var parts := RePartition(EscapedNewline, newtok);
    EmitFirstEscapedNewline(tokens, newtok, parts.0, parts.1, parts.2);
    r := AppendEscapedNewline(tokens, parts.0, parts.1);
    rest := parts.2;
  }

  /**
   * The multi-line gap loop of `src_to_tokens`: repeatedly partitions the gap
   * at its first escaped newline, and emits what is left as whitespace.
   */
  method AppendMultiLineGap(tokens: seq<Token>, gap: string) returns (r: seq<Token>)
    ensures r == tokens + SplitEscapedNewlines(gap)
  {
    r := tokens;
    var newtok := gap;
    while Search(EscapedNewline, newtok).Some?
      invariant r + SplitEscapedNewlines(newtok) == tokens + SplitEscapedNewlines(gap)
      decreases |newtok|
    {
      r, newtok := AppendFirstEscapedNewline(r, newtok);
    }
    SplitWithoutEscapedNewline(newtok);
    if newtok != "" {
      r := r + [Token(UnimportantWs, newtok)];
    }
  }

  /** The gap handling of `src_to_tokens`: appends the synthetic tokens between `last` and `start`. */
  method AppendGap(tokens: seq<Token>, lines: seq<string>, last: Pos, start: Pos)
    returns (r: seq<Token>)
    ensures r == tokens + GapTokens(lines, last, start)
  {
    r := tokens;
    if start.line > last.line {
      var newtok := SliceFrom(Line(lines, last.line), last.col);
      for lineno := last.line + 1 to start.line
        invariant newtok == SliceFrom(Line(lines, last.line), last.col)
                          + LinesBetween(lines, last.line + 1, lineno)
      {
        assert LinesBetween(lines, last.line + 1, lineno + 1)
            == LinesBetween(lines, last.line + 1, lineno) + Line(lines, lineno);
        newtok := newtok + Line(lines, lineno);
      }
      if start.col > 0 {
        newtok := newtok + SliceTo(Line(lines, start.line), start.col);
      }
      assert newtok == GapText(lines, last, start);
      r := AppendMultiLineGap(r, newtok);
    } else if start.col > last.col {
      r := r + [Token(UnimportantWs, Slice(Line(lines, start.line), last.col, start.col))];
    }
  }

  /** Emits the gap before `t` and then `t` itself: one step of the walk. */
  method EmitToken(tokens: seq<Token>, lines: seq<string>, last: Pos, t: LexToken) returns (r: seq<Token>)
    ensures r == Step(lines, State(tokens, last), t).tokens
  {
    r := AppendGap(tokens, lines, last, t.start);
    var utf8ByteOffset := Utf8Length(SliceTo(Line(lines, t.start.line), t.start.col));
    r := AppendLogical(r, t, utf8ByteOffset);
  }

  /** What is proved of every reconciliation: the round trip and the position rule. */
  lemma RunGuarantees(src: string, toks: seq<LexToken>)
    ensures LexedFrom(src, toks) ==> TokensToSrc(Run(SplitLines(src), toks).tokens) == src
    ensures AllLogical(toks) ==> PositionsConsistent(Run(SplitLines(src), toks).tokens)
  {
    if LexedFrom(src, toks) {
      RoundTrip(src, toks);
    }
    if AllLogical(toks) {
      RunPositions(SplitLines(src), toks);
    }
  }

  /**
   * `src_to_tokens(src)`, given what the lexer yields for `src`: walks the
   * lexer's tokens, emitting the synthetic tokens of each gap and then the
   * token itself, and advancing the cursor to the token's end.  A lexer error is
   * passed on.
   */
  method SrcToTokens(src: string, lexed: LexOutput) returns (r: Result<seq<Token>, TokenizeError>)
    ensures r == SrcToTokensSpec(src, lexed)
    ensures lexed.LexError? ==> r == Failure(TokenizeError(lexed.message))
    ensures lexed.Lexed? && LexedFrom(src, lexed.tokens) ==> r.Success? && TokensToSrc(r.value) == src
    ensures lexed.Lexed? && AllLogical(lexed.tokens) ==> r.Success? && PositionsConsistent(r.value)
  {
    var lines := SplitLines(src);
    if lexed.LexError? {
      return Failure(TokenizeError(lexed.message));
    }
    var toks := lexed.tokens;
    var tokens: seq<Token> := [];
    var lastLine, lastCol := 1, 0;
    for i := 0 to |toks|
      invariant Run(lines, toks[..i]) == State(tokens, Pos(lastLine, lastCol))
    {
      var t := toks[i];
      RunStep(lines, toks, i);
      tokens := EmitToken(tokens, lines, Pos(lastLine, lastCol), t);
      lastLine, lastCol := t.end.line, t.end.col;
    }
    assert toks[..|toks|] == toks;
    RunGuarantees(src, toks);
    return Success(tokens);
  }
}
