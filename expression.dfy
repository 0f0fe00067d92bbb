/**
 * `ap::Expression`: the object that holds an expression string, lexes it
 * into tokens, evaluates the tokens, and records whether the result is valid
 * and which message explains it.  The class keeps the source's fields and
 * its state machine and loops; each method is proved to compute the pure
 * specification of its operation (`Lex`, `Resolve`, `Evaluate`).
 */
module ArithmeticParser {
  import opened Wrappers
  import opened Doubles
  import opened Tokens
  import opened Patterns
  import opened Lexer
  import opened Evaluator
  import Syntax
  import Parsing

  /** The states of the lexer's state machine. */
  datatype ParseState = FindOpenParen | FindValue | FindCloseParen | FindOperator | OperatorNotFound | Finished

  /** Non-consuming transitions always move to a later state. */
  function Rank(state: ParseState): nat {
    match state
    case FindOpenParen => 5
    case FindValue => 4
    case FindCloseParen => 3
    case FindOperator => 2
    case OperatorNotFound => 1
    case Finished => 0
  }

  /**
   * The fields `evaluateExpression` leaves behind, and the message of the
   * logic error it rethrows, if any.
   */
  datatype Outcome = Outcome(value: Double, tokens: seq<Token>, isValid: bool, errorMessage: string, raised: Option<string>)

  /** The final check of `evaluateExpression`: an infinite value overrides validity and message. */
  function CheckInfinite(o: Outcome): Outcome {
    if IsInf(o.value) then o.(isValid := false, errorMessage := MsgInfiniteResult) else o
  }

  /**
   * `evaluateExpression` on the expression `e`, given the value and token
   * list the object held before.  An empty expression is rejected without
   * lexing and without touching the token list; a logic error clears the
   * token list and is rethrown before the infinity check; otherwise the
   * value is replaced only when the tokens evaluate.
   */
  function Evaluate(e: string, oldValue: Double, oldTokens: seq<Token>): Outcome {
    if e == "" then
      CheckInfinite(Outcome(oldValue, oldTokens, false, MsgEmptyExpression, None))
    else
      var l := Lex(e);
      if l.status == InvalidOperator then
        Outcome(oldValue, [], false, ExMsgInvalidOperator, Some(ExMsgInvalidOperator))
      else if l.status != Tokenized then
        CheckInfinite(Outcome(oldValue, l.tokens, false, Message(l.status), None))
      else
        LexWellShaped(e);
        ResolveWellShaped(l.tokens);
        match Resolve(l.tokens, 0, |l.tokens| - 1)
        case Ok(v) => CheckInfinite(Outcome(v, l.tokens, true, MsgNoError, None))
        case Err(err) =>
          assert err == UnexpectedToken;
          Outcome(oldValue, [], false, ExMsgUnexpectedToken, Some(ExMsgUnexpectedToken))
  }

  /** The messages an `Expression` can hold. */
  predicate KnownMessage(m: string) {
    m == MsgNoError || m == MsgEmptyExpression || m == MsgOperatorNotFound || m == MsgValueNotFound ||
    m == MsgUnbalancedParens || m == MsgInfiniteResult || m == ExMsgInvalidOperator || m == ExMsgUnexpectedToken
  }

  /** What every outcome satisfies: valid exactly when there is no message, and a valid value is never infinite. */
  predicate Consistent(o: Outcome) {
    (o.isValid <==> o.errorMessage == MsgNoError) && (o.isValid ==> !IsInf(o.value)) && KnownMessage(o.errorMessage)
  }

  /* ---- One step of the lexer's state machine, stated on the specification ---- */

  lemma OpenParenStep(ts: seq<Token>, rest: string, balance: int, n: nat)
    requires MatchOpenParen(rest) == Some(n)
    ensures n <= |rest|
    ensures Prepend(ts, LexOperand(rest, balance)) ==
      Prepend(ts + OpenParenTokens(rest[..n]), LexOperand(rest[n..], balance + 1))
  {
    assert ts + (OpenParenTokens(rest[..n]) + LexOperand(rest[n..], balance + 1).tokens) ==
      (ts + OpenParenTokens(rest[..n])) + LexOperand(rest[n..], balance + 1).tokens;
  }

  lemma ValueStep(ts: seq<Token>, rest: string, balance: int, n: nat)
    requires MatchOpenParen(rest).None? && MatchValue(rest) == Some(n)
    ensures n <= |rest|
    ensures Prepend(ts, LexOperand(rest, balance)) ==
      Prepend(ts + [Value(LexemeValue(rest[..n]))], LexAfterValue(rest[n..], balance))
  {
    assert ts + ([Value(LexemeValue(rest[..n]))] + LexAfterValue(rest[n..], balance).tokens) ==
      (ts + [Value(LexemeValue(rest[..n]))]) + LexAfterValue(rest[n..], balance).tokens;
  }

  lemma ValueMissingStep(ts: seq<Token>, rest: string, balance: int)
    requires MatchOpenParen(rest).None? && MatchValue(rest).None?
    ensures Prepend(ts, LexOperand(rest, balance)) == Lexed(ts, MissingValue)
  {
  }

  lemma CloseParenStep(ts: seq<Token>, rest: string, balance: int, n: nat)
    requires MatchCloseParen(rest) == Some(n)
    ensures n <= |rest|
    ensures Prepend(ts, LexAfterValue(rest, balance)) ==
      Prepend(ts + [CloseParen], LexAfterValue(rest[n..], balance - 1))
  {
    assert ts + ([CloseParen] + LexAfterValue(rest[n..], balance - 1).tokens) ==
      (ts + [CloseParen]) + LexAfterValue(rest[n..], balance - 1).tokens;
  }

  lemma OperatorStep(ts: seq<Token>, rest: string, balance: int, n: nat, op: OpFunction)
    requires MatchCloseParen(rest).None? && MatchOperator(rest) == Some(n)
    requires n <= |rest| && OpTokenFromString(rest[..n]) == Some(op)
    ensures Prepend(ts, LexAfterValue(rest, balance)) ==
      Prepend(ts + [Operator(op)], LexOperand(rest[n..], balance))
  {
    var after := LexOperand(rest[n..], balance);
    assert LexAfterValue(rest, balance) == Prepend([Operator(op)], after);
    assert ts + ([Operator(op)] + after.tokens) == (ts + [Operator(op)]) + after.tokens;
  }

  lemma EndStep(ts: seq<Token>, rest: string, balance: int)
    requires MatchCloseParen(rest).None? && MatchOperator(rest).None?
    ensures Prepend(ts, LexAfterValue(rest, balance)) ==
      Lexed(ts, if rest == [] || MatchWhitespace(rest) then (if balance != 0 then UnbalancedParens else Tokenized)
                else MissingOperator)
  {
  }

  class Expression {
    var value: Double
    var exp: string
    var tokenList: seq<Token>
    var isValid: bool
    var errorMessage: string

    ghost predicate Valid()
      reads this
    {
      Consistent(Outcome(value, tokenList, isValid, errorMessage, None))
    }

    /** `Expression()`: the empty expression, which is never valid. */
    constructor Empty()
      ensures exp == "" && Valid()
      ensures var o := Evaluate("", Finite(0.0), []);
        value == o.value && tokenList == o.tokens && isValid == o.isValid && errorMessage == o.errorMessage
    {
      value := Finite(0.0);
      exp := "";
      tokenList := [];
      isValid := false;
      errorMessage := MsgNoError;
      new;
      var _ := EvaluateExpression();
    }

    /** `Expression(exp)`: stores the expression and evaluates it. */
    constructor (e: string)
      ensures exp == e && Valid()
      ensures var o := Evaluate(e, Finite(0.0), []);
        value == o.value && tokenList == o.tokens && isValid == o.isValid && errorMessage == o.errorMessage
    {
      value := Finite(0.0);
      exp := e;
      tokenList := [];
      isValid := false;
      errorMessage := MsgNoError;
      new;
      var _ := EvaluateExpression();
    }

    /** `setExpression`: stores the new expression and evaluates it; returns the message of a rethrown logic error. */
    method SetExpression(e: string) returns (raised: Option<string>)
      modifies this
      ensures exp == e && Valid()
      ensures var o := Evaluate(e, old(value), old(tokenList));
        value == o.value && tokenList == o.tokens && isValid == o.isValid && errorMessage == o.errorMessage && raised == o.raised
    {
      exp := e;
      raised := EvaluateExpression();
    }

    /** `getExpression`: the expression last stored. */
    function GetExpression(): (r: string)
      reads this
      ensures r == exp
    {
      exp
    }

    /** `isValid`: valid exactly when no message is held. */
    function IsValid(): (r: bool)
      reads this
      requires Valid()
      ensures r <==> GetErrorMessage() == MsgNoError
      ensures r ==> !IsInf(GetValue())
    {
      isValid
    }

    /** `getErrorMessage`: one of the fixed messages, empty exactly when the expression is valid. */
    function GetErrorMessage(): (r: string)
      reads this
      requires Valid()
      ensures KnownMessage(r)
      ensures r == MsgNoError <==> isValid
    {
      errorMessage
    }

    /** `getValue`: the value held, which is meaningful only when the expression is valid. */
    function GetValue(): (r: Double)
      reads this
      requires Valid()
      ensures isValid ==> !IsInf(r)
    {
      value
    }

    /** `evaluateExpression`: lexes, evaluates and checks the expression held; returns the message of a rethrown logic error. */
    method EvaluateExpression() returns (raised: Option<string>)
      modifies this`value, this`tokenList, this`isValid, this`errorMessage
      ensures Valid()
      ensures var o := Evaluate(exp, old(value), old(tokenList));
        value == o.value && tokenList == o.tokens && isValid == o.isValid && errorMessage == o.errorMessage && raised == o.raised
    {
      EvaluateConsistent(exp, value, tokenList);
      if exp == "" {
        isValid := false;
        errorMessage := MsgEmptyExpression;
      } else {
        var thrown := CreateTokenList();
        if thrown.Some? {
          tokenList := [];
          isValid := false;
          errorMessage := thrown.value;
          return thrown;
        }
      }
      if isValid {
        LexWellShaped(exp);
        ResolveWellShaped(tokenList);
        var r := ResolveTokenList(0, |tokenList| - 1);
        if r.Err? {
          tokenList := [];
          isValid := false;
          errorMessage := ExMsgUnexpectedToken;
          return Some(ExMsgUnexpectedToken);
        }
        value := r.value;
      }
      if IsInf(value) {
        isValid := false;
        errorMessage := MsgInfiniteResult;
      }
      return None;
    }

    /**
     * `createTokenList`: the lexer's state machine over the rest of the
     * expression.  Returns the message of the logic error raised for an
     * operator lexeme that names no operator; the fields are then left as
     * they were, apart from the tokens queued so far.
     */
    method CreateTokenList() returns (raised: Option<string>)
      modifies this`tokenList, this`isValid, this`errorMessage
      ensures tokenList == Lex(exp).tokens
      ensures raised == if Lex(exp).status == InvalidOperator then Some(ExMsgInvalidOperator) else None
      ensures Lex(exp).status != InvalidOperator ==>
        isValid == (Lex(exp).status == Tokenized) && errorMessage == Message(Lex(exp).status)
      ensures Lex(exp).status == InvalidOperator ==> isValid == old(isValid) && errorMessage == old(errorMessage)
    {
      tokenList := [];
      var parenBalance := 0;
      var rest := exp;
      var state := FindOpenParen;
      ghost var target := Lex(exp);
      while state != Finished
        invariant state == FindOpenParen ==> Prepend(tokenList, LexOperand(rest, parenBalance)) == target
        invariant state == FindValue ==>
          MatchOpenParen(rest).None? && Prepend(tokenList, LexOperand(rest, parenBalance)) == target
        invariant state == FindCloseParen ==> Prepend(tokenList, LexAfterValue(rest, parenBalance)) == target
        invariant state == FindOperator ==>
          MatchCloseParen(rest).None? && Prepend(tokenList, LexAfterValue(rest, parenBalance)) == target
        invariant state == OperatorNotFound ==>
          MatchCloseParen(rest).None? && MatchOperator(rest).None? &&
          Prepend(tokenList, LexAfterValue(rest, parenBalance)) == target
        invariant state != Finished ==> isValid == old(isValid) && errorMessage == old(errorMessage)
        invariant state == Finished ==>
          tokenList == target.tokens && target.status != InvalidOperator &&
          isValid == (target.status == Tokenized) && errorMessage == Message(target.status)
        decreases |rest|, Rank(state)
      {
        match state
        case FindOpenParen =>
          state, rest, parenBalance := FindOpenParenCase(rest, parenBalance, target);
        case FindValue =>
          state, rest := FindValueCase(rest, parenBalance, target);
        case FindCloseParen =>
          state, rest, parenBalance := FindCloseParenCase(rest, parenBalance, target);
        case FindOperator =>
          var thrown;
          state, rest, thrown := FindOperatorCase(rest, parenBalance, target);
          if thrown.Some? {
            return thrown;
          }
        case OperatorNotFound =>
          OperatorNotFoundCase(rest, parenBalance, target);
          state := Finished;
      }
      return None;
    }

    /** The FIND_OPEN_PAREN case: queue an open-paren lexeme's tokens, or move on to FIND_VALUE. */
    method FindOpenParenCase(rest: string, parenBalance: int, ghost target: Lexed)
      returns (state: ParseState, rest': string, parenBalance': int)
      requires Prepend(tokenList, LexOperand(rest, parenBalance)) == target
      modifies this`tokenList
      ensures state == FindOpenParen ==> |rest'| < |rest| && Prepend(tokenList, LexOperand(rest', parenBalance')) == target
      ensures state == FindValue ==>
        tokenList == old(tokenList) && rest' == rest && parenBalance' == parenBalance && MatchOpenParen(rest).None?
      ensures state == FindOpenParen || state == FindValue
    {
      var m := MatchOpenParen(rest);
      if m.Some? {
        OpenParenStep(tokenList, rest, parenBalance, m.value);
        var lexeme := rest[..m.value];
        ghost var before := tokenList;
        if '-' in lexeme {
          tokenList := tokenList + [Value(-1.0), Operator(Multiplication)];
        }
        tokenList := tokenList + [OpenParen];
        assert tokenList == before + OpenParenTokens(lexeme);
        return FindOpenParen, rest[m.value..], parenBalance + 1;
      }
      return FindValue, rest, parenBalance;
    }

    /** The FIND_VALUE case: queue a value, or record that none was found and finish. */
    method FindValueCase(rest: string, parenBalance: int, ghost target: Lexed) returns (state: ParseState, rest': string)
      requires MatchOpenParen(rest).None? && Prepend(tokenList, LexOperand(rest, parenBalance)) == target
      modifies this`tokenList, this`isValid, this`errorMessage
      ensures state == FindCloseParen ==>
        |rest'| < |rest| && Prepend(tokenList, LexAfterValue(rest', parenBalance)) == target &&
        isValid == old(isValid) && errorMessage == old(errorMessage)
      ensures state == Finished ==>
        tokenList == target.tokens && target.status == MissingValue && !isValid && errorMessage == MsgValueNotFound
      ensures state == FindCloseParen || state == Finished
      ensures |rest'| <= |rest|
    {
      var m := MatchValue(rest);
      if m.Some? {
        ValueStep(tokenList, rest, parenBalance, m.value);
        tokenList := tokenList + [Value(LexemeValue(rest[..m.value]))];
        return FindCloseParen, rest[m.value..];
      }
      ValueMissingStep(tokenList, rest, parenBalance);
      isValid := false;
      errorMessage := MsgValueNotFound;
      return Finished, rest;
    }

    /** The FIND_CLOSE_PAREN case: queue a close paren, or move on to FIND_OPERATOR. */
    method FindCloseParenCase(rest: string, parenBalance: int, ghost target: Lexed)
      returns (state: ParseState, rest': string, parenBalance': int)
      requires Prepend(tokenList, LexAfterValue(rest, parenBalance)) == target
      modifies this`tokenList
      ensures state == FindCloseParen ==>
        |rest'| < |rest| && Prepend(tokenList, LexAfterValue(rest', parenBalance')) == target
      ensures state == FindOperator ==>
        tokenList == old(tokenList) && rest' == rest && parenBalance' == parenBalance && MatchCloseParen(rest).None?
      ensures state == FindCloseParen || state == FindOperator
    {
      var m := MatchCloseParen(rest);
      if m.Some? {
        CloseParenStep(tokenList, rest, parenBalance, m.value);
        tokenList := tokenList + [CloseParen];
        return FindCloseParen, rest[m.value..], parenBalance - 1;
      }
      return FindOperator, rest, parenBalance;
    }

    /**
     * The FIND_OPERATOR case: queue an operator, move on to
     * OPERATOR_NOT_FOUND, or raise the logic error for an operator lexeme
     * that names no operator.
     */
    method FindOperatorCase(rest: string, parenBalance: int, ghost target: Lexed)
      returns (state: ParseState, rest': string, raised: Option<string>)
      requires MatchCloseParen(rest).None? && Prepend(tokenList, LexAfterValue(rest, parenBalance)) == target
      modifies this`tokenList
      ensures raised.Some? ==> raised == Some(ExMsgInvalidOperator) && target.status == InvalidOperator && tokenList == target.tokens
      ensures raised.None? && state == FindOpenParen ==>
        |rest'| < |rest| && Prepend(tokenList, LexOperand(rest', parenBalance)) == target
      ensures raised.None? && state == OperatorNotFound ==>
        tokenList == old(tokenList) && rest' == rest && MatchOperator(rest).None?
      ensures raised.None? ==> state == FindOpenParen || state == OperatorNotFound
    {
      var m := MatchOperator(rest);
      if m.Some? {
        var op := OpTokenFromString(rest[..m.value]);
        if op.None? {
          return FindOperator, rest, Some(ExMsgInvalidOperator);
        }
        OperatorStep(tokenList, rest, parenBalance, m.value, op.value);
        tokenList := tokenList + [Operator(op.value)];
        return FindOpenParen, rest[m.value..], None;
      }
      return OperatorNotFound, rest, None;
    }

    /** The OPERATOR_NOT_FOUND case: the rest must be blank, and then the parentheses must balance. */
    method OperatorNotFoundCase(rest: string, parenBalance: int, ghost target: Lexed)
      requires MatchCloseParen(rest).None? && MatchOperator(rest).None?
      requires Prepend(tokenList, LexAfterValue(rest, parenBalance)) == target
      modifies this`isValid, this`errorMessage
      ensures tokenList == target.tokens && target.status != InvalidOperator
      ensures isValid == (target.status == Tokenized) && errorMessage == Message(target.status)
    {
      EndStep(tokenList, rest, parenBalance);
      if rest == [] || MatchWhitespace(rest) {
        if parenBalance != 0 {
          isValid := false;
          errorMessage := MsgUnbalancedParens;
        } else {
          isValid := true;
          errorMessage := MsgNoError;
        }
      } else {
        isValid := false;
        errorMessage := MsgOperatorNotFound;
      }
    }

    /** `resolveTokenList`: the value of the tokens from `startPos` to `endPos`, both included. */
    method ResolveTokenList(startPos: int, endPos: int) returns (r: Result<Double>)
      ensures r == Resolve(tokenList, startPos, endPos)
      decreases |tokenList| - startPos, 2
    {
      var completedPos := endPos + 1;
      var currentPos := startPos;
      if !(0 <= currentPos < |tokenList|) {
        return Err(OutOfRange);
      }
      var first := ResolveValueAtPos(currentPos);
      if first.Err? {
        return Err(first.error);
      }
      var result := first.value;
      var end := GetSubExpressionEndPos(currentPos);
      if end.Err? {
        return Err(end.error);
      }
      currentPos := end.value + 1;
      while currentPos < completedPos
        invariant startPos < currentPos
        invariant Loop(tokenList, currentPos, endPos, result) == Resolve(tokenList, startPos, endPos)
        decreases completedPos - currentPos
      {
        if currentPos >= |tokenList| {
          return Err(OutOfRange);
        }
        if GetType(tokenList[currentPos]) == OperatorType {
          var nextPos := currentPos + 1;
          match tokenList[currentPos].op
          case Addition =>
            var v := ResolveTokenList(nextPos, endPos);
            if v.Err? {
              return v;
            }
            result := Add(result, v.value);
            currentPos := completedPos;
          case Subtraction =>
            var v := ResolveTokenList(nextPos, endPos);
            if v.Err? {
              return v;
            }
            result := Sub(result, v.value);
            currentPos := completedPos;
          case Multiplication =>
            var v := ResolveValueAtPos(nextPos);
            if v.Err? {
              return v;
            }
            result := Mul(result, v.value);
            var q := GetSubExpressionEndPos(nextPos);
            if q.Err? {
              return Err(q.error);
            }
            currentPos := q.value + 1;
          case Division =>
            var v := ResolveValueAtPos(nextPos);
            if v.Err? {
              return v;
            }
            result := Div(result, v.value);
            var q := GetSubExpressionEndPos(nextPos);
            if q.Err? {
              return Err(q.error);
            }
            currentPos := q.value + 1;
        } else {
          return Err(UnexpectedToken);
        }
      }
      return Ok(result);
    }

    /** `resolveValueAtPos`: the value of the operand at `position`. */
    method ResolveValueAtPos(position: int) returns (r: Result<Double>)
      ensures r == ResolveValue(tokenList, position)
      decreases |tokenList| - position, 1
    {
      if !(0 <= position < |tokenList|) {
        return Err(OutOfRange);
      }
      var t := GetType(tokenList[position]);
      if t == ValueType {
        r := Ok(Finite(tokenList[position].value));
      } else if t == OpenParenType {
        var q := GetSubExpressionEndPos(position);
        if q.Err? {
          return Err(q.error);
        }
        r := ResolveTokenList(position + 1, q.value - 1);
      } else {
        r := Err(UnexpectedToken);
      }
    }

    /** `getSubExpressionEndPos`: the position of the `)` matching a `(` at `startPos`, or `startPos` itself. */
    method GetSubExpressionEndPos(startPos: int) returns (r: Result<int>)
      ensures r == SubExpressionEnd(tokenList, startPos)
    {
      if !(0 <= startPos < |tokenList|) {
        return Err(OutOfRange);
      }
      if GetType(tokenList[startPos]) != OpenParenType {
        return Ok(startPos);
      }
      var parenBalance := 1;
      var currentPos := startPos + 1;
      while parenBalance != 0
        invariant startPos < currentPos <= |tokenList|
        invariant Scan(tokenList, currentPos, parenBalance) == SubExpressionEnd(tokenList, startPos)
        decreases |tokenList| - currentPos
      {
        if currentPos == |tokenList| {
          return Err(OutOfRange);
        }
        var t := GetType(tokenList[currentPos]);
        if t == OpenParenType {
          parenBalance := parenBalance + 1;
        } else if t == CloseParenType {
          parenBalance := parenBalance - 1;
        }
        currentPos := currentPos + 1;
      }
      return Ok(currentPos - 1);
    }
  }

  /* ---- Properties of evaluateExpression ---- */

  /** Every outcome is consistent: valid exactly when there is no message, never valid with an infinite value. */
  lemma EvaluateConsistent(e: string, oldValue: Double, oldTokens: seq<Token>)
    ensures Consistent(Evaluate(e, oldValue, oldTokens))
  {
    MessagesDistinct();
  }

  /**
   * The outcome is valid exactly when the expression is non-empty, lexes to
   * the end, nests properly and has a finite value; the value is then the
   * value of the lexed tokens, which is the meaning of the expression they
   * print back from.
   */
  lemma ValidExactly(e: string, oldValue: Double, oldTokens: seq<Token>)
    ensures var o := Evaluate(e, oldValue, oldTokens);
      o.isValid <==> e != "" && Lex(e).status == Tokenized && WellNested(Lex(e).tokens) && !IsInf(o.value)
    ensures var o := Evaluate(e, oldValue, oldTokens);
      o.isValid ==> o.tokens == Lex(e).tokens && Resolve(o.tokens, 0, |o.tokens| - 1) == Ok(o.value)
    ensures var o := Evaluate(e, oldValue, oldTokens);
      o.isValid ==> Syntax.PrintSum(Parsing.Parse(o.tokens)) == o.tokens && o.value == Syntax.EvalSum(Parsing.Parse(o.tokens))
  {
    if e != "" && Lex(e).status == Tokenized {
      LexWellShaped(e);
      ResolveWellShaped(Lex(e).tokens);
      if WellNested(Lex(e).tokens) {
        Parsing.LexedMeaning(e);
      }
    }
  }

  /**
   * A logic error escapes exactly when the lexed tokens do not nest (a
   * closing parenthesis before its opening one); it is the evaluator's, the
   * lexer's never escapes, and it keeps the value and clears the tokens.
   */
  lemma RaisedExactly(e: string, oldValue: Double, oldTokens: seq<Token>)
    ensures var o := Evaluate(e, oldValue, oldTokens);
      o.raised.Some? <==> e != "" && Lex(e).status == Tokenized && !WellNested(Lex(e).tokens)
    ensures var o := Evaluate(e, oldValue, oldTokens);
      o.raised.Some? ==>
        o.raised == Some(ExMsgUnexpectedToken) && o.errorMessage == ExMsgUnexpectedToken &&
        !o.isValid && o.value == oldValue && o.tokens == []
  {
    NoInvalidOperator(e, 0);
    if e != "" && Lex(e).status == Tokenized {
      LexWellShaped(e);
      ResolveWellShaped(Lex(e).tokens);
    }
  }

  /**
   * When lexing stops at an error, the value is kept, the tokens lexed so
   * far are kept, and the message names the lexer's error unless the value
   * held before is infinite.
   */
  lemma LexErrorReported(e: string, oldValue: Double, oldTokens: seq<Token>)
    requires e != "" && Lex(e).status != Tokenized
    ensures var o := Evaluate(e, oldValue, oldTokens);
      !o.isValid && o.raised.None? && o.value == oldValue && o.tokens == Lex(e).tokens
    ensures Evaluate(e, oldValue, oldTokens).errorMessage ==
      if IsInf(oldValue) then MsgInfiniteResult else Message(Lex(e).status)
    ensures !IsInf(oldValue) ==>
      Evaluate(e, oldValue, oldTokens) == Outcome(oldValue, Lex(e).tokens, false, Message(Lex(e).status), None)
  {
    NoInvalidOperator(e, 0);
  }

  /**
   * When the lexer accepts the expression and its tokens resolve to `v`,
   * the outcome holds `v` and those tokens, and is valid unless `v` is
   * infinite.
   */
  lemma ResolvedReported(e: string, oldValue: Double, oldTokens: seq<Token>, v: Double)
    requires e != "" && Lex(e).status == Tokenized && Resolve(Lex(e).tokens, 0, |Lex(e).tokens| - 1) == Ok(v)
    ensures Evaluate(e, oldValue, oldTokens) ==
      if IsInf(v) then Outcome(v, Lex(e).tokens, false, MsgInfiniteResult, None)
      else Outcome(v, Lex(e).tokens, true, MsgNoError, None)
  {
  }

  /**
   * For an expression lexed to its end, with a finite value held before,
   * the unbalanced-parentheses message is reported exactly when the input
   * has different numbers of `(` and `)`.
   */
  lemma UnbalancedReported(e: string, oldValue: Double, oldTokens: seq<Token>)
    requires e != "" && !IsInf(oldValue)
    requires Lex(e).status == Tokenized || Lex(e).status == UnbalancedParens
    ensures Evaluate(e, oldValue, oldTokens).errorMessage == MsgUnbalancedParens <==>
      multiset(e)['('] != multiset(e)[')']
  {
    LexBalance(e);
    MessagesDistinct();
  }

  /** The empty expression is rejected without lexing: value and tokens are kept. */
  lemma EmptyRejected(oldValue: Double, oldTokens: seq<Token>)
    ensures var o := Evaluate("", oldValue, oldTokens);
      !o.isValid && o.raised.None? && o.value == oldValue && o.tokens == oldTokens
    ensures !IsInf(oldValue) ==> Evaluate("", oldValue, oldTokens).errorMessage == MsgEmptyExpression
  {
  }

  /** A non-empty expression of white space only is a missing value, not an empty expression. */
  lemma BlankIsMissingValue(e: string, oldValue: Double, oldTokens: seq<Token>)
    requires e != "" && AllSpace(e) && !IsInf(oldValue)
    ensures Evaluate(e, oldValue, oldTokens).errorMessage == MsgValueNotFound
    ensures Evaluate(e, oldValue, oldTokens).tokens == []
  {
    BlankLex(e);
  }

  /** Evaluating the same expression again, from the state it left behind, changes nothing. */
  lemma EvaluateIdempotent(e: string, oldValue: Double, oldTokens: seq<Token>)
    ensures var o := Evaluate(e, oldValue, oldTokens);
      Evaluate(e, o.value, o.tokens) == o
  {
  }

  /**
   * The state held before can change the outcome only through the infinity
   * check: validity and escaping errors never depend on it, and the message
   * does not either when neither earlier value is infinite.
   */
  lemma HistoryOnlyThroughInfinity(e: string, v0: Double, t0: seq<Token>, v1: Double, t1: seq<Token>)
    ensures Evaluate(e, v0, t0).isValid == Evaluate(e, v1, t1).isValid
    ensures Evaluate(e, v0, t0).raised == Evaluate(e, v1, t1).raised
    ensures !IsInf(v0) && !IsInf(v1) ==> Evaluate(e, v0, t0).errorMessage == Evaluate(e, v1, t1).errorMessage
  {
  }

  /* ---- The stale infinity check, corrected ---- */

  /**
   * `evaluateExpression` with the infinity check applied only to a value
   * computed for this expression, so that a failed expression is reported
   * by its own message whatever was evaluated before.
   */
  function IntendedEvaluate(e: string, oldValue: Double, oldTokens: seq<Token>): Outcome {
    if e == "" then
      Outcome(oldValue, oldTokens, false, MsgEmptyExpression, None)
    else
      var l := Lex(e);
      if l.status == InvalidOperator then
        Outcome(oldValue, [], false, ExMsgInvalidOperator, Some(ExMsgInvalidOperator))
      else if l.status != Tokenized then
        Outcome(oldValue, l.tokens, false, Message(l.status), None)
      else
        LexWellShaped(e);
        ResolveWellShaped(l.tokens);
        match Resolve(l.tokens, 0, |l.tokens| - 1)
        case Ok(v) => CheckInfinite(Outcome(v, l.tokens, true, MsgNoError, None))
        case Err(err) =>
          assert err == UnexpectedToken;
          Outcome(oldValue, [], false, ExMsgUnexpectedToken, Some(ExMsgUnexpectedToken))
  }

  /**
   * The corrected evaluation reports each expression by its own message:
   * validity, message and escaping error do not depend on the state held
   * before, an empty expression is always reported as empty and a lexer
   * error always by its own message.
   */
  lemma IntendedReportsCurrent(e: string, v0: Double, t0: seq<Token>, v1: Double, t1: seq<Token>)
    ensures IntendedEvaluate(e, v0, t0).isValid == IntendedEvaluate(e, v1, t1).isValid
    ensures IntendedEvaluate(e, v0, t0).errorMessage == IntendedEvaluate(e, v1, t1).errorMessage
    ensures IntendedEvaluate(e, v0, t0).raised == IntendedEvaluate(e, v1, t1).raised
    ensures e == "" ==> IntendedEvaluate(e, v0, t0).errorMessage == MsgEmptyExpression
    ensures e != "" && Lex(e).status != Tokenized ==> IntendedEvaluate(e, v0, t0).errorMessage == Message(Lex(e).status)
  {
    NoInvalidOperator(e, 0);
  }

  /** The corrected evaluation is consistent, and agrees with the source whenever the value held before is finite. */
  lemma IntendedAgrees(e: string, oldValue: Double, oldTokens: seq<Token>)
    ensures Consistent(IntendedEvaluate(e, oldValue, oldTokens))
    ensures !IsInf(oldValue) ==> IntendedEvaluate(e, oldValue, oldTokens) == Evaluate(e, oldValue, oldTokens)
  {
    MessagesDistinct();
  }

  /** As written, an empty expression evaluated after an infinite result is reported as an infinite result. */
  lemma StaleInfinity(t0: seq<Token>)
    ensures Evaluate("", Infinity(false), t0).errorMessage == MsgInfiniteResult
    ensures IntendedEvaluate("", Infinity(false), t0).errorMessage == MsgEmptyExpression
    ensures MsgInfiniteResult != MsgEmptyExpression
  {
    MessagesDistinct();
  }
}
