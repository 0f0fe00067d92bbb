/**
 * The `minus`, `plus`, `times` and `divide` patterns as the regex engine
 * reads them.  Their `.` is the ECMAScript wildcard, which matches any
 * character except a line terminator, and `regex_match` must cover the whole
 * lexeme.  A white-space prefix that holds a newline or a carriage return
 * then defeats the pattern, although the `operator` and `open_paren`
 * patterns accept it through `\s*`.  The lexer in `Lexer` uses the intended
 * reading, "the lexeme contains the character".
 */
module AsWritten {
  import opened Wrappers
  import opened Tokens
  import opened Patterns
  import opened Lexer

  predicate IsLineTerminator(c: char) {
    c == '\n' || c == '\r'
  }

  /** `regex_match(w, ".*c.*")`: every character is matched by `.`, and one of them is `c`. */
  predicate DotStarMatch(w: string, c: char) {
    c in w && forall i | 0 <= i < |w| :: !IsLineTerminator(w[i])
  }

  /** `getOpTokenFromString` as written; `None` stands for the `EXMSG_INVALID_OPERATOR` logic error. */
  function OpTokenFromStringAsWritten(w: string): (r: Option<OpFunction>)
    ensures r.Some? ==> forall i | 0 <= i < |w| :: !IsLineTerminator(w[i])
  {
    if DotStarMatch(w, '-') then Some(Subtraction)
    else if DotStarMatch(w, '+') then Some(Addition)
    else if DotStarMatch(w, '*') then Some(Multiplication)
    else if DotStarMatch(w, '/') then Some(Division)
    else None
  }

  /** The tokens queued for an open-parenthesis lexeme, with the `minus` test as written. */
  function OpenParenTokensAsWritten(w: string): (r: seq<Token>)
    ensures |r| > 0 && r[|r| - 1] == OpenParen
  {
    if DotStarMatch(w, '-') then [Value(-1.0), Operator(Multiplication), OpenParen] else [OpenParen]
  }

  /** Without a line terminator in the lexeme the patterns as written and as intended agree. */
  lemma AgreeWithoutLineTerminators(w: string)
    requires forall i | 0 <= i < |w| :: !IsLineTerminator(w[i])
    ensures OpTokenFromStringAsWritten(w) == OpTokenFromString(w)
    ensures OpenParenTokensAsWritten(w) == OpenParenTokens(w)
  {
  }

  /**
   * `1\n-2`: after the value `1`, the `operator` pattern matches the lexeme
   * `\n-`, which `getOpTokenFromString` as written rejects with a logic
   * error; the intended reading yields subtraction.
   */
  lemma NewlineBeforeOperator()
    ensures MatchCloseParen("\n-2") == None
    ensures MatchOperator("\n-2") == Some(2)
    ensures IsOperatorLexeme("\n-")
    ensures OpTokenFromStringAsWritten("\n-") == None
    ensures OpTokenFromString("\n-") == Some(Subtraction)
  {
    assert LeadingSpace("\n-2") == 1 by {
      assert LeadingSpace("-2") == 0;
      assert "\n-2"[1..] == "-2";
    }
    assert "\n-2"[..2] == "\n-";
    assert LeadingSpace("\n-") == 1 by {
      assert LeadingSpace("-") == 0;
      assert "\n-"[1..] == "-";
    }
    assert "\n-"[0] == '\n';
    assert "\n-"[1] == '-';
  }

  /**
   * `\n-(2)`: the `open_paren` pattern matches `\n-(`, but the `minus` test
   * as written fails on it, so the negation is lost; the intended reading
   * queues `-1 *` before the parenthesis.
   */
  lemma NewlineBeforeNegatedParen()
    ensures MatchOpenParen("\n-(2)") == Some(3)
    ensures IsOpenParenLexeme("\n-(")
    ensures OpenParenTokensAsWritten("\n-(") == [OpenParen]
    ensures OpenParenTokens("\n-(") == [Value(-1.0), Operator(Multiplication), OpenParen]
  {
    assert LeadingSpace("\n-(2)") == 1 by {
      assert LeadingSpace("-(2)") == 0;
      assert "\n-(2)"[1..] == "-(2)";
    }
    assert LeadingSpace("\n-(") == 1 by {
      assert LeadingSpace("-(") == 0;
      assert "\n-("[1..] == "-(";
    }
    assert "\n-("[1..] == "-(";
    assert "\n-("[0] == '\n';
    assert "\n-("[1] == '-';
  }
}
