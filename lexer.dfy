/**
 * The lexer's specification: what `createTokenList` computes, written as a
 * grammar over the remaining input, and what is proved about it.  The state
 * machine itself is `ArithmeticParser.Expression.CreateTokenList`, which is
 * proved to compute `Lex`.
 */
module Lexer {
  import opened Wrappers
  import opened Tokens
  import opened Patterns

  /** How a run of the lexer ends.  `InvalidOperator` is the logic error raised by `getOpTokenFromString`. */
  datatype Status = Tokenized | MissingValue | UnbalancedParens | MissingOperator | InvalidOperator

  /** The tokens queued before the lexer stopped, and how it stopped. */
  datatype Lexed = Lexed(tokens: seq<Token>, status: Status)

  /** The message the lexer leaves behind (for `InvalidOperator`, the message the raised error carries). */
  function Message(st: Status): string {
    match st
    case Tokenized => MsgNoError
    case MissingValue => MsgValueNotFound
    case UnbalancedParens => MsgUnbalancedParens
    case MissingOperator => MsgOperatorNotFound
    case InvalidOperator => ExMsgInvalidOperator
  }

  /** The tokens queued for an open-paren lexeme: a minus in it becomes a multiplication by -1 in front of the `(`. */
  function OpenParenTokens(lexeme: string): seq<Token> {
    if '-' in lexeme then [Value(-1.0), Operator(Multiplication), OpenParen] else [OpenParen]
  }

  /** `getOpTokenFromString`: the operator is the first of `-`, `+`, `*`, `/` that the lexeme contains; None stands for the raised logic error. */
  function OpTokenFromString(lexeme: string): Option<OpFunction> {
    if '-' in lexeme then Some(Subtraction)
    else if '+' in lexeme then Some(Addition)
    else if '*' in lexeme then Some(Multiplication)
    else if '/' in lexeme then Some(Division)
    else None
  }

  function Prepend(ts: seq<Token>, l: Lexed): Lexed {
    Lexed(ts + l.tokens, l.status)
  }

  /**
   * Lexing where an operand is expected (the FIND_OPEN_PAREN and FIND_VALUE
   * states): open-paren lexemes, then a value.  `balance` is the number of
   * parentheses opened and not yet closed.
   */
  function LexOperand(s: string, balance: int): Lexed
    decreases |s|
  {
    match MatchOpenParen(s)
    case Some(n) => Prepend(OpenParenTokens(s[..n]), LexOperand(s[n..], balance + 1))
    case None =>
      match MatchValue(s)
      case Some(n) => Prepend([Value(LexemeValue(s[..n]))], LexAfterValue(s[n..], balance))
      case None => Lexed([], MissingValue)
  }

  /**
   * Lexing after a value (the FIND_CLOSE_PAREN, FIND_OPERATOR and
   * OPERATOR_NOT_FOUND states): close-paren lexemes, then an operator and the
   * next operand, or the end of the input.
   */
  function LexAfterValue(s: string, balance: int): Lexed
    decreases |s|
  {
    match MatchCloseParen(s)
    case Some(n) => Prepend([CloseParen], LexAfterValue(s[n..], balance - 1))
    case None =>
      match MatchOperator(s)
      case Some(n) => (
        match OpTokenFromString(s[..n])
        case Some(op) => Prepend([Operator(op)], LexOperand(s[n..], balance))
        case None => Lexed([], InvalidOperator))
      case None =>
        if s == [] || MatchWhitespace(s) then
          Lexed([], if balance != 0 then UnbalancedParens else Tokenized)
        else Lexed([], MissingOperator)
  }

  /** `createTokenList` on the whole expression. */
  function Lex(s: string): Lexed {
    LexOperand(s, 0)
  }

  /* ---- Lexemes and the tokens they give ---- */

  /** An open-paren lexeme gives `-1 * (` exactly when its sign is a minus, and a bare `(` otherwise. */
  lemma OpenParenFold(w: string)
    requires IsOpenParenLexeme(w)
    ensures OpenParenTokens(w) == if w[LeadingSpace(w)] == '-' then [Value(-1.0), Operator(Multiplication), OpenParen] else [OpenParen]
  {
    var i := LeadingSpace(w);
    var v := w[i..];
    assert w == w[..i] + v;
    assert '-' !in w[..i];
    assert ('-' in v) == (v[0] == '-');
    assert ('-' in w) == ('-' in v);
  }

  function CharOp(c: char): OpFunction
    requires IsOperatorChar(c)
  {
    if c == '-' then Subtraction else if c == '+' then Addition else if c == '*' then Multiplication else Division
  }

  /** Every operator lexeme maps to the operator its character names; the logic error is never raised for one. */
  lemma OperatorLexemeMaps(w: string)
    requires IsOperatorLexeme(w)
    ensures OpTokenFromString(w) == Some(CharOp(w[LeadingSpace(w)]))
  {
    var i := LeadingSpace(w);
    assert w == w[..i] + w[i..];
    assert '-' !in w[..i] && '+' !in w[..i] && '*' !in w[..i] && '/' !in w[..i];
  }

  /* ---- Shape of an accepted token list ---- */

  predicate Chained(ts: seq<Token>) {
    forall i | 0 <= i < |ts| - 1 :: Follows(ts[i], ts[i + 1])
  }

  lemma ChainedAppend(a: seq<Token>, b: seq<Token>)
    requires |a| > 0 && |b| > 0 && Chained(a) && Chained(b) && Follows(a[|a| - 1], b[0])
    ensures Chained(a + b)
  {
    forall i | 0 <= i < |a + b| - 1
      ensures Follows((a + b)[i], (a + b)[i + 1])
    {
      if i >= |a| {
        assert (a + b)[i] == b[i - |a|] && (a + b)[i + 1] == b[i + 1 - |a|];
      }
    }
  }

  /** What an operand accepted where one is expected looks like: an operand start first, an operand end last, alternating, closing all `balance` open parentheses. */
  predicate OperandShaped(ts: seq<Token>, balance: int) {
    |ts| > 0 && ValueSlot(ts[0]) && EndSlot(ts[|ts| - 1]) && Chained(ts) && balance + Depth(ts, |ts|) == 0
  }

  /** What is accepted after a value: nothing, or a `)` or operator first and an operand end last, alternating. */
  predicate TailShaped(ts: seq<Token>, balance: int) {
    balance + Depth(ts, |ts|) == 0 &&
    (|ts| > 0 ==> (ts[0].Operator? || ts[0].CloseParen?) && EndSlot(ts[|ts| - 1]) && Chained(ts))
  }

  /** Tokens put in front of a shaped list keep its shape when they chain onto it. */
  lemma PrependShaped(head: seq<Token>, rest: seq<Token>, balance: int)
    requires |head| > 0 && Chained(head)
    requires OperandShaped(rest, balance + Depth(head, |head|)) || TailShaped(rest, balance + Depth(head, |head|))
    requires |rest| > 0 ==> Follows(head[|head| - 1], rest[0])
    requires |rest| == 0 ==> EndSlot(head[|head| - 1])
    ensures balance + Depth(head + rest, |head + rest|) == 0
    ensures Chained(head + rest) && (head + rest)[0] == head[0]
    ensures EndSlot((head + rest)[|head + rest| - 1])
  {
    DepthAppend(head, rest, |rest|);
    if |rest| > 0 {
      ChainedAppend(head, rest);
      assert (head + rest)[|head + rest| - 1] == rest[|rest| - 1];
    } else {
      assert head + rest == head;
    }
  }

  lemma OpenParenHead(w: string)
    ensures var head := OpenParenTokens(w);
      |head| > 0 && Chained(head) && ValueSlot(head[0]) && head[|head| - 1] == OpenParen && Depth(head, |head|) == 1
  {
    var head := OpenParenTokens(w);
    if |head| == 3 {
      assert Depth(head, 1) == 0;
      assert Depth(head, 2) == 0;
    }
  }

  lemma {:induction false} OperandShape(s: string, balance: int)
    ensures LexOperand(s, balance).status == Tokenized ==> OperandShaped(LexOperand(s, balance).tokens, balance)
    decreases |s|
  {
    if MatchOpenParen(s).Some? {
      var n := MatchOpenParen(s).value;
      OperandShape(s[n..], balance + 1);
      OpenParenShape(s, balance, n);
    } else if MatchValue(s).Some? {
      var n := MatchValue(s).value;
      AfterValueShape(s[n..], balance);
      ValueShape(s, balance, n);
    }
  }

  lemma {:induction false} AfterValueShape(s: string, balance: int)
    ensures LexAfterValue(s, balance).status == Tokenized ==> TailShaped(LexAfterValue(s, balance).tokens, balance)
    decreases |s|
  {
    if MatchCloseParen(s).Some? {
      var n := MatchCloseParen(s).value;
      AfterValueShape(s[n..], balance - 1);
      CloseParenShape(s, balance, n);
    } else if MatchOperator(s).Some? {
      var n := MatchOperator(s).value;
      OperandShape(s[n..], balance);
      OperatorShape(s, balance, n);
    }
  }

  /** One open-paren lexeme in front of a shaped operand. */
  lemma OpenParenShape(s: string, balance: int, n: nat)
    requires MatchOpenParen(s) == Some(n)
    requires var r := LexOperand(s[n..], balance + 1); r.status == Tokenized ==> OperandShaped(r.tokens, balance + 1)
    ensures LexOperand(s, balance).status == Tokenized ==> OperandShaped(LexOperand(s, balance).tokens, balance)
  {
    var rest := LexOperand(s[n..], balance + 1);
    assert LexOperand(s, balance) == Prepend(OpenParenTokens(s[..n]), rest);
    OpenParenFront(s[..n], rest, balance);
  }

  /** One value in front of a shaped tail. */
  lemma ValueShape(s: string, balance: int, n: nat)
    requires MatchOpenParen(s).None? && MatchValue(s) == Some(n)
    requires var r := LexAfterValue(s[n..], balance); r.status == Tokenized ==> TailShaped(r.tokens, balance)
    ensures LexOperand(s, balance).status == Tokenized ==> OperandShaped(LexOperand(s, balance).tokens, balance)
  {
    var rest := LexAfterValue(s[n..], balance);
    assert LexOperand(s, balance) == Prepend([Value(LexemeValue(s[..n]))], rest);
    SingleFront(Value(LexemeValue(s[..n])), rest, balance);
  }

  /** One close paren in front of a shaped tail. */
  lemma CloseParenShape(s: string, balance: int, n: nat)
    requires MatchCloseParen(s) == Some(n)
    requires var r := LexAfterValue(s[n..], balance - 1); r.status == Tokenized ==> TailShaped(r.tokens, balance - 1)
    ensures LexAfterValue(s, balance).status == Tokenized ==> TailShaped(LexAfterValue(s, balance).tokens, balance)
  {
    var rest := LexAfterValue(s[n..], balance - 1);
    assert LexAfterValue(s, balance) == Prepend([CloseParen], rest);
    SingleFront(CloseParen, rest, balance);
  }

  /** One operator in front of a shaped operand. */
  lemma OperatorShape(s: string, balance: int, n: nat)
    requires MatchCloseParen(s).None? && MatchOperator(s) == Some(n)
    requires var r := LexOperand(s[n..], balance); r.status == Tokenized ==> OperandShaped(r.tokens, balance)
    ensures LexAfterValue(s, balance).status == Tokenized ==> TailShaped(LexAfterValue(s, balance).tokens, balance)
  {
    if OpTokenFromString(s[..n]).Some? {
      var op := OpTokenFromString(s[..n]).value;
      var rest := LexOperand(s[n..], balance);
      assert LexAfterValue(s, balance) == Prepend([Operator(op)], rest);
      SingleFront(Operator(op), rest, balance);
    }
  }

  /** The tokens of an open-paren lexeme in front of a shaped operand give a shaped operand. */
  lemma OpenParenFront(w: string, rest: Lexed, balance: int)
    requires rest.status == Tokenized ==> OperandShaped(rest.tokens, balance + 1)
    ensures var l := Prepend(OpenParenTokens(w), rest); l.status == Tokenized ==> OperandShaped(l.tokens, balance)
  {
    if rest.status == Tokenized {
      OpenParenHead(w);
      PrependShaped(OpenParenTokens(w), rest.tokens, balance);
    }
  }

  /**
   * A value in front of a shaped tail gives a shaped operand; a close paren or
   * an operator in front of a shaped tail or operand gives a shaped tail.
   */
  lemma SingleFront(t: Token, rest: Lexed, balance: int)
    requires t.Value? ==> (rest.status == Tokenized ==> TailShaped(rest.tokens, balance))
    requires t.CloseParen? ==> (rest.status == Tokenized ==> TailShaped(rest.tokens, balance - 1))
    requires t.Operator? ==> (rest.status == Tokenized ==> OperandShaped(rest.tokens, balance))
    requires !t.OpenParen?
    ensures var l := Prepend([t], rest);
      l.status == Tokenized ==> (if t.Value? then OperandShaped(l.tokens, balance) else TailShaped(l.tokens, balance))
  {
    if rest.status == Tokenized {
      PrependShaped([t], rest.tokens, balance);
    }
  }

  /** Every token list the lexer accepts is well shaped: operands and operators alternate and the parentheses balance. */
  lemma LexWellShaped(s: string)
    ensures Lex(s).status == Tokenized ==> WellShaped(Lex(s).tokens)
  {
    OperandShape(s, 0);
  }

  /** The logic error of `getOpTokenFromString` is unreachable from the lexer: every operator lexeme names an operator. */
  lemma {:induction false} NoInvalidOperator(s: string, balance: int)
    ensures LexOperand(s, balance).status != InvalidOperator
    ensures LexAfterValue(s, balance).status != InvalidOperator
    decreases |s|
  {
    if MatchOpenParen(s).Some? {
      NoInvalidOperator(s[MatchOpenParen(s).value..], balance + 1);
    } else if MatchValue(s).Some? {
      NoInvalidOperator(s[MatchValue(s).value..], balance);
    }
    if MatchCloseParen(s).Some? {
      NoInvalidOperator(s[MatchCloseParen(s).value..], balance - 1);
    } else if MatchOperator(s).Some? {
      var n := MatchOperator(s).value;
      MatchOperatorSpec(s);
      OperatorLexemeMaps(s[..n]);
      NoInvalidOperator(s[n..], balance);
    }
  }

  /* ---- Parenthesis balance of the text ---- */

  /** Open minus close parenthesis characters in `s`. */
  function ParenBalance(s: string): int {
    multiset(s)['('] as int - multiset(s)[')'] as int
  }

  lemma BalanceSplit(s: string, n: nat)
    requires n <= |s|
    ensures ParenBalance(s) == ParenBalance(s[..n]) + ParenBalance(s[n..])
  {
    assert s == s[..n] + s[n..];
  }

  lemma NoParenBalance(w: string)
    requires forall i | 0 <= i < |w| :: w[i] != '(' && w[i] != ')'
    ensures ParenBalance(w) == 0
  {
    assert '(' !in w && ')' !in w;
  }

  /** A lexeme ending in one parenthesis character after `k` characters that are none. */
  lemma OneParenBalance(w: string, k: nat)
    requires k < |w| && |w| == k + 1
    requires forall i | 0 <= i < k :: w[i] != '(' && w[i] != ')'
    ensures ParenBalance(w) == if w[k] == '(' then 1 else if w[k] == ')' then -1 else 0
  {
    BalanceSplit(w, k);
    NoParenBalance(w[..k]);
    assert w[k..] == [w[k]];
  }

  lemma OpenParenBalance(s: string)
    requires MatchOpenParen(s).Some?
    ensures ParenBalance(s[..MatchOpenParen(s).value]) == 1
  {
    var n := MatchOpenParen(s).value;
    OneParenBalance(s[..n], n - 1);
  }

  lemma CloseParenBalance(s: string)
    requires MatchCloseParen(s).Some?
    ensures ParenBalance(s[..MatchCloseParen(s).value]) == -1
  {
    var n := MatchCloseParen(s).value;
    OneParenBalance(s[..n], n - 1);
  }

  lemma OperatorBalance(s: string)
    requires MatchOperator(s).Some?
    ensures ParenBalance(s[..MatchOperator(s).value]) == 0
  {
    NoParenBalance(s[..MatchOperator(s).value]);
  }

  lemma ValueBalance(s: string)
    requires MatchValue(s).Some?
    ensures ParenBalance(s[..MatchValue(s).value]) == 0
  {
    NoParenBalance(s[..MatchValue(s).value]);
  }

  /** The statuses that say whether the parentheses balanced: accepted exactly when `balance` plus the text's own balance is zero. */
  predicate BalanceDecides(st: Status, balance: int, s: string) {
    st == Tokenized || st == UnbalancedParens ==> (st == Tokenized <==> balance + ParenBalance(s) == 0)
  }

  lemma {:induction false} OperandBalance(s: string, balance: int)
    ensures BalanceDecides(LexOperand(s, balance).status, balance, s)
    decreases |s|, 1
  {
    if MatchOpenParen(s).Some? {
      var n := MatchOpenParen(s).value;
      OperandBalance(s[n..], balance + 1);
      OpenParenBalanceStep(s, balance, n);
    } else if MatchValue(s).Some? {
      var n := MatchValue(s).value;
      AfterValueBalance(s[n..], balance);
      ValueBalanceStep(s, balance, n);
    }
  }

  lemma {:induction false} AfterValueBalance(s: string, balance: int)
    ensures BalanceDecides(LexAfterValue(s, balance).status, balance, s)
    decreases |s|, 0
  {
    if MatchCloseParen(s).Some? {
      var n := MatchCloseParen(s).value;
      AfterValueBalance(s[n..], balance - 1);
      CloseParenBalanceStep(s, balance, n);
    } else if MatchOperator(s).Some? {
      var n := MatchOperator(s).value;
      OperandBalance(s[n..], balance);
      OperatorBalanceStep(s, balance, n);
    } else if AllSpace(s) {
      NoParenBalance(s);
    }
  }

  lemma OpenParenBalanceStep(s: string, balance: int, n: nat)
    requires MatchOpenParen(s) == Some(n)
    requires BalanceDecides(LexOperand(s[n..], balance + 1).status, balance + 1, s[n..])
    ensures BalanceDecides(LexOperand(s, balance).status, balance, s)
  {
    OpenParenBalance(s);
    BalanceSplit(s, n);
  }

  lemma ValueBalanceStep(s: string, balance: int, n: nat)
    requires MatchOpenParen(s).None? && MatchValue(s) == Some(n)
    requires BalanceDecides(LexAfterValue(s[n..], balance).status, balance, s[n..])
    ensures BalanceDecides(LexOperand(s, balance).status, balance, s)
  {
    ValueBalance(s);
    BalanceSplit(s, n);
  }

  lemma CloseParenBalanceStep(s: string, balance: int, n: nat)
    requires MatchCloseParen(s) == Some(n)
    requires BalanceDecides(LexAfterValue(s[n..], balance - 1).status, balance - 1, s[n..])
    ensures BalanceDecides(LexAfterValue(s, balance).status, balance, s)
  {
    CloseParenBalance(s);
    BalanceSplit(s, n);
  }

  lemma OperatorBalanceStep(s: string, balance: int, n: nat)
    requires MatchCloseParen(s).None? && MatchOperator(s) == Some(n)
    requires BalanceDecides(LexOperand(s[n..], balance).status, balance, s[n..])
    ensures BalanceDecides(LexAfterValue(s, balance).status, balance, s)
  {
    OperatorBalance(s);
    BalanceSplit(s, n);
  }

  /**
   * When the lexer reads to the end of the input, it accepts exactly when the
   * text has as many `(` characters as `)` characters, and reports unbalanced
   * parentheses otherwise.
   */
  lemma LexBalance(s: string)
    requires Lex(s).status == Tokenized || Lex(s).status == UnbalancedParens
    ensures Lex(s).status == Tokenized <==> multiset(s)['('] == multiset(s)[')']
  {
    OperandBalance(s, 0);
  }

  /** An expression of white space alone (the empty one included) has no value to start with. */
  lemma BlankLex(s: string)
    requires AllSpace(s)
    ensures Lex(s) == Lexed([], MissingValue)
  {
    var i := LeadingSpace(s);
    assert i == |s|;
  }
}
