/**
 * The token model of the parser: the four token variants, the tag each one
 * reports, the fixed diagnostic messages, and the shape predicates that
 * describe a token list the lexer can produce.
 */
module Tokens {

  datatype OpFunction = Addition | Subtraction | Multiplication | Division

  datatype TokenType = OpenParenType | CloseParenType | ValueType | OperatorType

  /** A token is a value: its payload cannot change once it is built. */
  datatype Token = OpenParen | CloseParen | Value(value: real) | Operator(op: OpFunction)

  /** The tag a token reports (`getType`); each variant has its own fixed tag. */
  function GetType(t: Token): (r: TokenType)
    ensures r == OpenParenType <==> t.OpenParen?
    ensures r == CloseParenType <==> t.CloseParen?
    ensures r == ValueType <==> t.Value?
    ensures r == OperatorType <==> t.Operator?
  {
    match t
    case OpenParen => OpenParenType
    case CloseParen => CloseParenType
    case Value(_) => ValueType
    case Operator(_) => OperatorType
  }

  // Messages shown to the user when the input is rejected.
  const MsgEmptyExpression: string := "no expression was provided"
  const MsgOperatorNotFound: string := "expected arithmetic operator not found"
  const MsgValueNotFound: string := "expected value or open parentheses not found"
  const MsgUnbalancedParens: string := "unmatched parentheses in expression"
  const MsgInfiniteResult: string := "infinite result encountered: possible division by zero"
  const MsgNoError: string := ""

  // Messages carried by the logic errors raised when an impossible branch is reached.
  const ExMsgInvalidOperator: string := "execution error: invalid operator encountered while parsing expression"
  const ExMsgUnexpectedToken: string := "execution error: unexpected token type encountered during evaluation"

  /** The "no error" message is empty and every other message is non-empty and distinct. */
  lemma MessagesDistinct()
    ensures MsgNoError == ""
    ensures MsgEmptyExpression != "" && MsgOperatorNotFound != "" && MsgValueNotFound != ""
    ensures MsgUnbalancedParens != "" && MsgInfiniteResult != ""
    ensures ExMsgInvalidOperator != "" && ExMsgUnexpectedToken != ""
    ensures MsgEmptyExpression != MsgOperatorNotFound && MsgEmptyExpression != MsgValueNotFound
    ensures MsgEmptyExpression != MsgUnbalancedParens && MsgEmptyExpression != MsgInfiniteResult
    ensures MsgOperatorNotFound != MsgValueNotFound && MsgOperatorNotFound != MsgUnbalancedParens
    ensures MsgOperatorNotFound != MsgInfiniteResult && MsgValueNotFound != MsgUnbalancedParens
    ensures MsgValueNotFound != MsgInfiniteResult && MsgUnbalancedParens != MsgInfiniteResult
    ensures ExMsgInvalidOperator != ExMsgUnexpectedToken
    ensures MsgEmptyExpression != ExMsgInvalidOperator && MsgEmptyExpression != ExMsgUnexpectedToken
    ensures MsgOperatorNotFound != ExMsgInvalidOperator && MsgOperatorNotFound != ExMsgUnexpectedToken
    ensures MsgValueNotFound != ExMsgInvalidOperator && MsgValueNotFound != ExMsgUnexpectedToken
    ensures MsgUnbalancedParens != ExMsgInvalidOperator && MsgUnbalancedParens != ExMsgUnexpectedToken
    ensures MsgInfiniteResult != ExMsgInvalidOperator && MsgInfiniteResult != ExMsgUnexpectedToken
  {
    assert |MsgEmptyExpression| == 26 && |MsgOperatorNotFound| == 38 && |MsgValueNotFound| == 44;
    assert |MsgUnbalancedParens| == 35 && |MsgInfiniteResult| == 54;
    assert |ExMsgInvalidOperator| == 70 && |ExMsgUnexpectedToken| == 68;
  }

  /* ---- Parenthesis depth of a token list ---- */

  function Delta(t: Token): int {
    if t.OpenParen? then 1 else if t.CloseParen? then -1 else 0
  }

  /** Opens minus closes among the first `i` tokens. */
  function Depth(ts: seq<Token>, i: nat): int
    requires i <= |ts|
  {
    if i == 0 then 0 else Depth(ts, i - 1) + Delta(ts[i - 1])
  }

  /* ---- Alternation of operands and operators ---- */

  /** Tokens that may stand where an operand is expected. */
  predicate ValueSlot(t: Token) {
    t.Value? || t.OpenParen?
  }

  /** Tokens that may end an operand. */
  predicate EndSlot(t: Token) {
    t.Value? || t.CloseParen?
  }

  /** `b` may directly follow `a`: after an operator or `(` comes an operand, after an operand's end comes `)` or an operator. */
  predicate Follows(a: Token, b: Token) {
    if a.Operator? || a.OpenParen? then ValueSlot(b) else b.Operator? || b.CloseParen?
  }

  /** The tokens `ts[a..b]` (inclusive) start an operand, end one, and alternate in between. */
  predicate Alternating(ts: seq<Token>, a: int, b: int)
    requires 0 <= a <= b < |ts|
  {
    ValueSlot(ts[a]) && EndSlot(ts[b]) && forall i | a <= i < b :: Follows(ts[i], ts[i + 1])
  }

  /** The shape of every token list the lexer accepts: non-empty, alternating, with as many `(` as `)`. */
  predicate WellShaped(ts: seq<Token>) {
    |ts| > 0 && Alternating(ts, 0, |ts| - 1) && Depth(ts, |ts|) == 0
  }

  /** No prefix closes more parentheses than it opens. */
  predicate WellNested(ts: seq<Token>) {
    forall i | 0 <= i <= |ts| :: Depth(ts, i) >= 0
  }

  lemma {:induction false} DepthAppend(a: seq<Token>, b: seq<Token>, j: nat)
    requires j <= |b|
    ensures Depth(a + b, |a| + j) == Depth(a, |a|) + Depth(b, j)
  {
    if j > 0 {
      DepthAppend(a, b, j - 1);
      assert (a + b)[|a| + j - 1] == b[j - 1];
    } else {
      DepthPrefixAt(a + b, a, |a|);
    }
  }

  lemma {:induction false} DepthPrefixAt(ts: seq<Token>, p: seq<Token>, i: nat)
    requires p <= ts && i <= |p|
    ensures Depth(ts, i) == Depth(p, i)
  {
    if i > 0 {
      DepthPrefixAt(ts, p, i - 1);
    }
  }
}
