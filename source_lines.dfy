/**
 * The physical lines of a source text and the coordinates into them.  The lexer
 * reports positions as (1-based line, 0-based column); `Flat` converts such a
 * position to an index into the whole text, clamping the column to the line the
 * way Python slicing does.
 */
module SourceLines {

  /** The strings concatenated in order. */
  function Concat(ss: seq<string>): string
  {
    if ss == [] then "" else ss[0] + Concat(ss[1..])
  }

  lemma {:induction false} ConcatAppend(a: seq<string>, b: seq<string>)
    ensures Concat(a + b) == Concat(a) + Concat(b)
    decreases |a|
  {
    if a == [] {
      assert a + b == b;
    } else {
      assert (a + b)[1..] == a[1..] + b;
      ConcatAppend(a[1..], b);
    }
  }

  /** A physical line: non-empty, with a line feed at most as its last character. */
  predicate IsPhysicalLine(l: string)
  {
    l != "" && forall j :: 0 <= j < |l| - 1 ==> l[j] != '\n'
  }

  /** The index just past the first line feed at or after `from`, or `|s|` when there is none. */
  function NextLineEnd(s: string, from: nat): (k: nat)
    requires from < |s|
    ensures from < k <= |s|
    ensures forall j :: from <= j < k - 1 ==> s[j] != '\n'
    ensures k < |s| ==> s[k - 1] == '\n'
    decreases |s| - from
  {
    if s[from] == '\n' || from + 1 == |s| then from + 1 else NextLineEnd(s, from + 1)
  }

  /**
   * The physical lines of `src`, each keeping its terminator: iterating over
   * `io.StringIO(src)`, which ends a line after each line feed.
   */
  function SplitLines(src: string): (lines: seq<string>)
    ensures Concat(lines) == src
    ensures forall k :: 0 <= k < |lines| ==>
      IsPhysicalLine(lines[k]) && (k < |lines| - 1 ==> lines[k][|lines[k]| - 1] == '\n')
    decreases |src|
  {
    if src == "" then []
    else
      var k := NextLineEnd(src, 0);
      var rest := SplitLines(src[k..]);
      assert ([src[..k]] + rest)[1..] == rest;
      [src[..k]] + rest
  }

  /** A text whose only line feed, if any, is its last character is a single line. */
  lemma OneLine(s: string)
    requires s != ""
    requires forall j :: 0 <= j < |s| - 1 ==> s[j] != '\n'
    ensures SplitLines(s) == [s]
  {
    assert s[|s|..] == "";
    assert s[..|s|] == s;
  }

  /** A line followed by more text: the line, then the lines of the rest. */
  lemma FirstLine(line: string, rest: string)
    requires line != "" && line[|line| - 1] == '\n'
    requires forall j :: 0 <= j < |line| - 1 ==> line[j] != '\n'
    ensures SplitLines(line + rest) == [line] + SplitLines(rest)
  {
    var s := line + rest;
    assert s[..|line|] == line;
    assert s[|line|..] == rest;
    if rest != "" {
      assert s[|line| - 1] == '\n';
    }
  }

  /** Two lines, each with its only line feed at its end. */
  lemma TwoLines(first: string, second: string)
    requires first != "" && first[|first| - 1] == '\n'
    requires forall j :: 0 <= j < |first| - 1 ==> first[j] != '\n'
    requires second != "" && forall j :: 0 <= j < |second| - 1 ==> second[j] != '\n'
    ensures SplitLines(first + second) == [first, second]
  {
    FirstLine(first, second);
    OneLine(second);
  }

  /** A lexer position: 1-based line, 0-based column. */
  datatype Pos = Pos(line: nat, col: nat)

  /** Line `k` (1-based), or the empty string past the last line. */
  function Line(lines: seq<string>, k: nat): string
  {
    if 1 <= k <= |lines| then lines[k - 1] else ""
  }

  /**
   * Positions the lexer can report: on a line, or at the start of the line
   * just past the last one (where it puts `ENDMARKER` and closing `DEDENT`s).
   */
  predicate InRange(lines: seq<string>, p: Pos)
  {
    1 <= p.line <= |lines| + 1 && (p.line == |lines| + 1 ==> p.col == 0)
  }

  /** The index in the whole text at which line `k` begins. */
  function LineStart(lines: seq<string>, k: nat): nat
    requires 1 <= k <= |lines| + 1
  {
    |Concat(lines[..k - 1])|
  }

  function Min(a: nat, b: nat): nat
  {
    if a <= b then a else b
  }

  /** The index in the whole text denoted by `p`, the column clamped to its line. */
  function Flat(lines: seq<string>, p: Pos): nat
    requires InRange(lines, p)
  {
    LineStart(lines, p.line) + Min(p.col, |Line(lines, p.line)|)
  }

  /** Python's `s[i:]`. */
  function SliceFrom(s: string, i: nat): string
  {
    if i <= |s| then s[i..] else ""
  }

  /** Python's `s[:j]`. */
  function SliceTo(s: string, j: nat): string
  {
    if j <= |s| then s[..j] else s
  }

  /** Python's `s[i:j]`. */
  function Slice(s: string, i: nat, j: nat): string
  {
    var i', j' := Min(i, |s|), Min(j, |s|);
    if i' <= j' then s[i'..j'] else ""
  }

  /** Lines `a` to `b - 1` concatenated: `lines[a] + ... + lines[b - 1]` for 1-based lines. */
  function LinesBetween(lines: seq<string>, a: nat, b: nat): string
    decreases b
  {
    if b <= a then "" else LinesBetween(lines, a, b - 1) + Line(lines, b - 1)
  }

  /** The text before line `k` is the concatenation of the lines before it. */
  lemma PrefixBeforeLine(lines: seq<string>, k: nat)
    requires 1 <= k <= |lines| + 1
    ensures LineStart(lines, k) <= |Concat(lines)|
    ensures Concat(lines)[..LineStart(lines, k)] == Concat(lines[..k - 1])
  {
    assert lines == lines[..k - 1] + lines[k - 1..];
    ConcatAppend(lines[..k - 1], lines[k - 1..]);
  }

  /** Line `k` occupies the text from its start to the start of the next line. */
  lemma LineInText(lines: seq<string>, k: nat)
    requires 1 <= k <= |lines|
    ensures LineStart(lines, k + 1) == LineStart(lines, k) + |lines[k - 1]|
    ensures LineStart(lines, k + 1) <= |Concat(lines)|
    ensures Concat(lines)[LineStart(lines, k)..LineStart(lines, k + 1)] == lines[k - 1]
  {
    assert lines[..k] == lines[..k - 1] + [lines[k - 1]];
    ConcatAppend(lines[..k - 1], [lines[k - 1]]);
    assert Concat([lines[k - 1]]) == lines[k - 1];
    PrefixBeforeLine(lines, k + 1);
  }

  /** The last line ends where the text ends. */
  lemma EndOfText(lines: seq<string>)
    ensures LineStart(lines, |lines| + 1) == |Concat(lines)|
  {
    assert lines[..|lines|] == lines;
  }

  /** The whole lines between two line numbers are the text between their starts. */
  lemma {:induction false} LinesBetweenInText(lines: seq<string>, a: nat, b: nat)
    requires 1 <= a <= b <= |lines| + 1
    ensures LineStart(lines, a) <= LineStart(lines, b) <= |Concat(lines)|
    ensures LinesBetween(lines, a, b) == Concat(lines)[LineStart(lines, a)..LineStart(lines, b)]
    decreases b
  {
    if a == b {
      PrefixBeforeLine(lines, b);
    } else {
      LinesBetweenInText(lines, a, b - 1);
      LineInText(lines, b - 1);
      AdjacentSlices(Concat(lines), LineStart(lines, a), LineStart(lines, b - 1), LineStart(lines, b));
    }
  }

  /** Adjacent slices of a text join into one slice. */
  lemma AdjacentSlices(s: string, a: nat, b: nat, c: nat)
    requires a <= b <= c <= |s|
    ensures s[a..c] == s[a..b] + s[b..c]
  {
  }

  /** A slice of a piece of a text is the corresponding slice of the text. */
  lemma SliceOfPiece(src: string, start: nat, piece: string, i: nat, j: nat)
    requires start + |piece| <= |src| && src[start..start + |piece|] == piece
    requires i <= j <= |piece|
    ensures piece[i..j] == src[start + i..start + j]
  {
    assert forall m :: i <= m < j ==> piece[m] == src[start + m];
  }

  /** The rest of a line from a column is the text from that position to the next line. */
  lemma RestOfLineInText(lines: seq<string>, p: Pos)
    requires 1 <= p.line <= |lines|
    ensures Flat(lines, p) <= LineStart(lines, p.line + 1) <= |Concat(lines)|
    ensures SliceFrom(Line(lines, p.line), p.col)
         == Concat(lines)[Flat(lines, p)..LineStart(lines, p.line + 1)]
  {
    LineInText(lines, p.line);
    var l := lines[p.line - 1];
    SliceOfPiece(Concat(lines), LineStart(lines, p.line), l, Min(p.col, |l|), |l|);
  }

  /** Python's `piece[:col]` of a piece of a text, as a slice of the text. */
  lemma PrefixOfPiece(src: string, start: nat, piece: string, col: nat)
    requires start + |piece| <= |src| && src[start..start + |piece|] == piece
    ensures SliceTo(piece, col) == src[start..start + Min(col, |piece|)]
  {
    var j := Min(col, |piece|);
    assert SliceTo(piece, col) == piece[0..j];
    SliceOfPiece(src, start, piece, 0, j);
  }

  /** Python's `piece[a:b]` of a piece of a text, as a slice of the text. */
  lemma ClampedSliceOfPiece(src: string, start: nat, piece: string, a: nat, b: nat)
    requires start + |piece| <= |src| && src[start..start + |piece|] == piece
    requires a <= b
    ensures Slice(piece, a, b) == src[start + Min(a, |piece|)..start + Min(b, |piece|)]
  {
    var i, j := Min(a, |piece|), Min(b, |piece|);
    assert Slice(piece, a, b) == piece[i..j];
    SliceOfPiece(src, start, piece, i, j);
  }

  /** The position past the last line is the end of the text. */
  lemma PastLastLine(lines: seq<string>, p: Pos)
    requires InRange(lines, p) && p.line == |lines| + 1
    ensures Line(lines, p.line) == ""
    ensures Flat(lines, p) == LineStart(lines, p.line) == |Concat(lines)|
  {
    EndOfText(lines);
  }

  /** A position on a line is the line's start plus the clamped column. */
  lemma OnLine(lines: seq<string>, p: Pos)
    requires 1 <= p.line <= |lines|
    ensures var start, l := LineStart(lines, p.line), lines[p.line - 1];
      && Line(lines, p.line) == l
      && Flat(lines, p) == start + Min(p.col, |l|)
      && start + |l| <= |Concat(lines)|
      && Concat(lines)[start..start + |l|] == l
  {
    LineInText(lines, p.line);
  }

  /** The start of a line up to a column is the text from the line start to that position. */
  lemma StartOfLineInText(lines: seq<string>, p: Pos)
    requires InRange(lines, p)
    ensures LineStart(lines, p.line) <= Flat(lines, p) <= |Concat(lines)|
    ensures SliceTo(Line(lines, p.line), p.col)
         == Concat(lines)[LineStart(lines, p.line)..Flat(lines, p)]
  {
    if p.line <= |lines| {
      StartOfLineOnLine(lines, p);
    } else {
      PastLastLine(lines, p);
    }
  }

  /** `StartOfLineInText` for a position on one of the lines. */
  lemma StartOfLineOnLine(lines: seq<string>, p: Pos)
    requires 1 <= p.line <= |lines|
    ensures LineStart(lines, p.line) <= Flat(lines, p) <= |Concat(lines)|
    ensures SliceTo(Line(lines, p.line), p.col)
         == Concat(lines)[LineStart(lines, p.line)..Flat(lines, p)]
  {
    OnLine(lines, p);
    PrefixOfPiece(Concat(lines), LineStart(lines, p.line), lines[p.line - 1], p.col);
  }

  /** A slice of one line between two columns is the text between the two positions. */
  lemma SliceOfLineInText(lines: seq<string>, line: nat, a: nat, b: nat)
    requires InRange(lines, Pos(line, a)) && InRange(lines, Pos(line, b)) && a <= b
    ensures Flat(lines, Pos(line, a)) <= Flat(lines, Pos(line, b)) <= |Concat(lines)|
    ensures Slice(Line(lines, line), a, b)
         == Concat(lines)[Flat(lines, Pos(line, a))..Flat(lines, Pos(line, b))]
  {
    if line <= |lines| {
      OnLine(lines, Pos(line, a));
      OnLine(lines, Pos(line, b));
      ClampedSliceOfPiece(Concat(lines), LineStart(lines, line), lines[line - 1], a, b);
    } else {
      PastLastLine(lines, Pos(line, a));
      PastLastLine(lines, Pos(line, b));
    }
  }

  /** The number of bytes of `c` in UTF-8. */
  function Utf8Width(c: char): nat
  {
    if c as int < 0x80 then 1
    else if c as int < 0x800 then 2
    else if c as int < 0x10000 then 3
    else 4
  }

  /** `len(s.encode('UTF-8'))`. */
  function Utf8Length(s: string): nat
  {
    if s == "" then 0 else Utf8Length(s[..|s| - 1]) + Utf8Width(s[|s| - 1])
  }

  /** An ASCII text has one byte per character. */
  lemma {:induction false} Utf8LengthOfAscii(s: string)
    requires forall k :: 0 <= k < |s| ==> s[k] as int < 0x80
    ensures Utf8Length(s) == |s|
  {
    if s != "" {
      Utf8LengthOfAscii(s[..|s| - 1]);
    }
  }

  /** In an ASCII line the byte offset of a column is the column. */
  lemma Utf8LengthOfAsciiPrefix(s: string, j: nat)
    requires forall k :: 0 <= k < |s| ==> s[k] as int < 0x80
    requires j <= |s|
    ensures Utf8Length(SliceTo(s, j)) == j
  {
    Utf8LengthOfAscii(s[..j]);
  }
}
