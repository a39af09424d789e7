/** `_re_partition` and `parse_string_literal` on the inputs of the test suite. */
module PatternsExamples {
  import opened Wrappers
  import opened Patterns

  /** No match: the whole string, then two empty strings. */
  lemma RePartitionNoMatch()
    ensures RePartition(Literal("z"), "abc") == ("abc", "", "")
  {
    assert "abc"[0..1] == "a" && "abc"[1..2] == "b" && "abc"[2..3] == "c";
    assert Search(Literal("z"), "abc", 3).None?;
    assert Search(Literal("z"), "abc").None?;
  }

  /** A match: the text before it, the match, and the text after it. */
  lemma RePartitionMatch()
    ensures RePartition(Literal("b"), "abc") == ("a", "b", "c")
  {
    assert "abc"[0..1] == "a";
    assert MatchAt(Literal("b"), "abc", 0).None?;
    assert MatchAt(Literal("b"), "abc", 1) == Some(1);
    assert "abc"[..1] == "a" && "abc"[1..2] == "b" && "abc"[2..] == "c";
  }

  /** The prefix and the body of the four literals of the test suite. */
  lemma ParseStringLiteralCases()
    ensures ParseStringLiteral("\"\"") == ("", "\"\"")
    ensures ParseStringLiteral("u\"foo\"") == ("u", "\"foo\"")
    ensures ParseStringLiteral("F\"hi\"") == ("F", "\"hi\"")
    ensures ParseStringLiteral("r\"\"\"x\"\"\"") == ("r", "\"\"\"x\"\"\"")
  {
    assert "" + "\"\"" == "\"\"";
    ParseStringLiteralSplitsPrefix("", "\"\"");
    assert "u" + "\"foo\"" == "u\"foo\"";
    ParseStringLiteralSplitsPrefix("u", "\"foo\"");
    assert "F" + "\"hi\"" == "F\"hi\"";
    ParseStringLiteralSplitsPrefix("F", "\"hi\"");
    assert "r" + "\"\"\"x\"\"\"" == "r\"\"\"x\"\"\"";
    ParseStringLiteralSplitsPrefix("r", "\"\"\"x\"\"\"");
  }
}
