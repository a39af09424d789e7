/**
 * The token records of tokenize-rt: `Offset`, `Token`, the token categories
 * and `tokens_to_src`, the serializer that concatenates token texts.
 */
module Tokens {
  import opened Wrappers

  /**
   * Token categories.  The first eleven are reported by the lexer; the last two
   * (`UNIMPORTANT_WS` and `ESCAPED_NL`) are introduced only by the gap
   * reconciliation in `src_to_tokens`.
   */
  datatype Category =
    | Name | Op | Number | String | Newline | Nl | Comment
    | Indent | Dedent | EndMarker | ErrorToken
    | UnimportantWs | EscapedNl
  {
    /** A category that the lexer never reports. */
    predicate IsSynthetic() {
      UnimportantWs? || EscapedNl?
    }

    /** `NON_CODING_TOKENS`: comments, escaped newlines, non-logical newlines and whitespace. */
    predicate IsNonCoding() {
      Comment? || EscapedNl? || Nl? || UnimportantWs?
    }
  }

  /** A (line, UTF-8 byte offset) pair; both default to `None`. */
  datatype Offset = Offset(line: Option<nat> := None, utf8ByteOffset: Option<nat> := None)

  /** A token: its category, its exact source text and its optional position. */
  datatype Token = Token(name: Category, src: string,
                         line: Option<nat> := None, utf8ByteOffset: Option<nat> := None)
  {
    /** `Token.offset`: the position packed as an `Offset`. */
    function OffsetOf(): (o: Offset)
      ensures o.line == line && o.utf8ByteOffset == utf8ByteOffset
    {
      Offset(line, utf8ByteOffset)
    }
  }

  /** `tokens_to_src`: the texts of the tokens, concatenated in order. */
  function TokensToSrc(tokens: seq<Token>): string
  {
    if tokens == [] then "" else TokensToSrc(tokens[..|tokens| - 1]) + tokens[|tokens| - 1].src
  }

  /** Serializing a concatenation serializes each part. */
  lemma {:induction false} TokensToSrcConcat(a: seq<Token>, b: seq<Token>)
    ensures TokensToSrc(a + b) == TokensToSrc(a) + TokensToSrc(b)
    decreases |b|
  {
    if b == [] {
      assert a + b == a;
    } else {
      var b' := b[..|b| - 1];
      assert (a + b)[..|a + b| - 1] == a + b';
      TokensToSrcConcat(a, b');
    }
  }

  /**
   * Every synthetic token carries no position, every lexer token carries one,
   * and line and byte offset are present together or absent together.
   */
  predicate PositionsConsistent(tokens: seq<Token>)
  {
    forall k :: 0 <= k < |tokens| ==>
      && (tokens[k].name.IsSynthetic() <==> tokens[k].line.None?)
      && (tokens[k].line.None? <==> tokens[k].utf8ByteOffset.None?)
  }

  /** `Offset()` is `Offset(line=None, utf8_byte_offset=None)`. */
  lemma OffsetDefaultValues()
    ensures Offset() == Offset(line := None, utf8ByteOffset := None)
  {
  }

  /** `Token('NAME', 'x', line=1, utf8_byte_offset=2).offset == Offset(line=1, utf8_byte_offset=2)`. */
  lemma TokenOffsetPacksPosition()
    ensures Token(Name, "x", line := Some(1), utf8ByteOffset := Some(2)).OffsetOf()
         == Offset(line := Some(1), utf8ByteOffset := Some(2))
  {
  }
}
