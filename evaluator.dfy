/**
 * The evaluator's specification: what `getSubExpressionEndPos`,
 * `resolveValueAtPos` and `resolveTokenList` compute on a token list, as
 * recursive functions, and the proof that on every token list the lexer
 * accepts they never index outside the list and raise their logic error
 * exactly when some prefix closes more parentheses than it opens.  The
 * methods that compute these with loops are in `ArithmeticParser.Expression`.
 */
module Evaluator {
  import opened Tokens
  import opened Doubles

  /**
   * `UnexpectedToken` is the logic error the evaluator raises;
   * `OutOfRange` stands for an index outside the token list, which the
   * source does not check (its behaviour is undefined there).
   */
  datatype EvalError = UnexpectedToken | OutOfRange

  datatype Result<T> = Ok(value: T) | Err(error: EvalError)

  /* ---- getSubExpressionEndPos ---- */

  /** The scanning loop: `balance` parentheses are open at position `pos`. */
  function Scan(ts: seq<Token>, pos: int, balance: int): (r: Result<int>)
    requires 0 < pos <= |ts|
    ensures r.Ok? ==> pos - 1 <= r.value < |ts|
    decreases |ts| - pos
  {
    if balance == 0 then Ok(pos - 1)
    else if pos == |ts| then Err(OutOfRange)
    else Scan(ts, pos + 1, balance + Delta(ts[pos]))
  }

  /** The position of the `)` matching the `(` at `p`, or `p` itself for any other token. */
  function SubExpressionEnd(ts: seq<Token>, p: int): (r: Result<int>)
    ensures r.Ok? ==> 0 <= p <= r.value < |ts|
  {
    if !(0 <= p < |ts|) then Err(OutOfRange)
    else if !ts[p].OpenParen? then Ok(p)
    else Scan(ts, p + 1, 1)
  }

  lemma {:induction false} ScanMatches(ts: seq<Token>, p: int, pos: int, balance: int)
    requires 0 <= p < pos <= |ts|
    requires balance == Depth(ts, pos) - Depth(ts, p) >= 0
    requires forall i | p < i < pos :: Depth(ts, i) > Depth(ts, p)
    ensures Scan(ts, pos, balance).Ok? ==>
      var q := Scan(ts, pos, balance).value;
      Depth(ts, q + 1) == Depth(ts, p) && forall i | p < i <= q :: Depth(ts, i) > Depth(ts, p)
    ensures Scan(ts, pos, balance) == Err(OutOfRange) || Scan(ts, pos, balance).Ok?
    ensures Scan(ts, pos, balance).Err? ==> forall i | p < i <= |ts| :: Depth(ts, i) > Depth(ts, p)
    decreases |ts| - pos
  {
    if balance != 0 && pos < |ts| {
      ScanMatches(ts, p, pos + 1, balance + Delta(ts[pos]));
    }
  }

  /**
   * For a `(` at `p`, the end position is the first position after which the
   * parenthesis depth is back where it was before `p`: that token is the
   * matching `)`.  The only failure is running off the end of the list, and
   * it happens exactly when the `(` is never closed.
   */
  lemma SubExpressionEndMatches(ts: seq<Token>, p: int)
    requires 0 <= p < |ts| && ts[p].OpenParen?
    ensures SubExpressionEnd(ts, p).Ok? ==>
      var q := SubExpressionEnd(ts, p).value;
      p < q && ts[q].CloseParen? && Depth(ts, q + 1) == Depth(ts, p) &&
      forall i | p < i <= q :: Depth(ts, i) > Depth(ts, p)
    ensures SubExpressionEnd(ts, p).Err? ==>
      SubExpressionEnd(ts, p).error == OutOfRange && forall i | p < i <= |ts| :: Depth(ts, i) > Depth(ts, p)
  {
    ScanMatches(ts, p, p + 1, 1);
    if SubExpressionEnd(ts, p).Ok? {
      var q := SubExpressionEnd(ts, p).value;
      assert Depth(ts, q + 1) == Depth(ts, q) + Delta(ts[q]);
    }
  }

  /* ---- resolveValueAtPos and resolveTokenList ---- */

  /** The value of the operand at `p`: a value token, or the parenthesised sub-expression opened there. */
  function ResolveValue(ts: seq<Token>, p: int): Result<Double>
    decreases |ts| - p, 1
  {
    if !(0 <= p < |ts|) then Err(OutOfRange)
    else match ts[p]
      case Value(v) => Ok(Finite(v))
      case OpenParen => (
        match SubExpressionEnd(ts, p)
        case Err(e) => Err(e)
        case Ok(q) => Resolve(ts, p + 1, q - 1))
      case _ => Err(UnexpectedToken)
  }

  /** The value of the tokens `ts[start..end]` (both ends included). */
  function Resolve(ts: seq<Token>, start: int, end: int): Result<Double>
    decreases |ts| - start, 2
  {
    if !(0 <= start < |ts|) then Err(OutOfRange)
    else match ResolveValue(ts, start)
      case Err(e) => Err(e)
      case Ok(first) => (
        match SubExpressionEnd(ts, start)
        case Err(e) => Err(e)
        case Ok(q) => Loop(ts, q + 1, end, first))
  }

  /**
   * The operator loop from position `pos`, with `acc` the value so far.  A
   * `*` or `/` combines `acc` with the next operand and goes on; a `+` or
   * `-` combines it with the value of everything up to `end`.
   */
  function Loop(ts: seq<Token>, pos: int, end: int, acc: Double): Result<Double>
    requires 0 < pos
    decreases |ts| - pos, 0
  {
    if pos >= end + 1 then Ok(acc)
    else if pos >= |ts| then Err(OutOfRange)
    else match ts[pos]
      case Operator(op) => (
        match op
        case Addition => (
          match Resolve(ts, pos + 1, end)
          case Err(e) => Err(e)
          case Ok(v) => Ok(Add(acc, v)))
        case Subtraction => (
          match Resolve(ts, pos + 1, end)
          case Err(e) => Err(e)
          case Ok(v) => Ok(Sub(acc, v)))
        case _ => (
          match ResolveValue(ts, pos + 1)
          case Err(e) => Err(e)
          case Ok(v) => (
            match SubExpressionEnd(ts, pos + 1)
            case Err(e) => Err(e)
            case Ok(q) => Loop(ts, q + 1, end, if op == Multiplication then Mul(acc, v) else Div(acc, v)))))
      case _ => Err(UnexpectedToken)
  }

  /* ---- Safety on lexer output ---- */

  /** The depth stays at least its value at `a` through position `b`. */
  predicate NestedFrom(ts: seq<Token>, a: int, b: int)
    requires 0 <= a && b <= |ts|
  {
    forall i | a <= i <= b :: Depth(ts, i) >= Depth(ts, a)
  }

  lemma AlternatingWithin(ts: seq<Token>, a: int, b: int, c: int, d: int)
    requires 0 <= a <= c <= d <= b < |ts| && Alternating(ts, a, b)
    requires ValueSlot(ts[c]) && EndSlot(ts[d])
    ensures Alternating(ts, c, d)
  {
  }

  /** An operand at `p` of a balanced alternating range ends inside the range and has a value. */
  lemma {:induction false} ValueSafe(ts: seq<Token>, p: int, b: int)
    requires 0 <= p <= b < |ts| && Alternating(ts, p, b) && Depth(ts, b + 1) == Depth(ts, p)
    ensures SubExpressionEnd(ts, p).Ok? && ResolveValue(ts, p).Ok?
    ensures var q := SubExpressionEnd(ts, p).value;
      q <= b && EndSlot(ts[q]) && Depth(ts, q + 1) == Depth(ts, p) &&
      forall i | p < i <= q :: Depth(ts, i) > Depth(ts, p)
    decreases b - p, 1
  {
    if ts[p].OpenParen? {
      SubExpressionEndMatches(ts, p);
      assert Depth(ts, p + 1) == Depth(ts, p) + 1;
      var q := SubExpressionEnd(ts, p).value;
      assert q <= b;
      assert p < b && Follows(ts[p], ts[p + 1]);
      assert Follows(ts[q - 1], ts[q]);
      assert Depth(ts, q + 1) == Depth(ts, q) - 1;
      AlternatingWithin(ts, p, b, p + 1, q - 1);
      RangeSafe(ts, p + 1, q - 1);
    }
  }

  /** The operator loop over a balanced alternating range never leaves it, and succeeds exactly when the range stays nested. */
  lemma {:induction false} LoopSafe(ts: seq<Token>, a: int, pos: int, b: int, acc: Double)
    requires 0 <= a < pos <= b + 1 && b < |ts| && Alternating(ts, a, b)
    requires Depth(ts, b + 1) == Depth(ts, a) && Depth(ts, pos) == Depth(ts, a)
    requires EndSlot(ts[pos - 1]) && NestedFrom(ts, a, pos)
    ensures Loop(ts, pos, b, acc) != Err(OutOfRange)
    ensures Loop(ts, pos, b, acc).Ok? <==> NestedFrom(ts, a, b + 1)
    decreases b + 1 - pos, 1
  {
    if pos <= b {
      assert Follows(ts[pos - 1], ts[pos]);
      if ts[pos].Operator? {
        if ts[pos].op.Addition? || ts[pos].op.Subtraction? {
          AdditiveSafe(ts, a, pos, b, acc);
        } else {
          MultiplicativeSafe(ts, a, pos, b, acc);
        }
      } else {
        assert Depth(ts, pos + 1) == Depth(ts, pos) - 1;
      }
    }
  }

  /** A `+` or `-` in the loop: the rest of the range is resolved on its own. */
  lemma {:induction false} AdditiveSafe(ts: seq<Token>, a: int, pos: int, b: int, acc: Double)
    requires 0 <= a < pos <= b && b < |ts| && Alternating(ts, a, b)
    requires Depth(ts, b + 1) == Depth(ts, a) && Depth(ts, pos) == Depth(ts, a)
    requires EndSlot(ts[pos - 1]) && NestedFrom(ts, a, pos)
    requires ts[pos].Operator? && (ts[pos].op.Addition? || ts[pos].op.Subtraction?)
    ensures Loop(ts, pos, b, acc) != Err(OutOfRange)
    ensures Loop(ts, pos, b, acc).Ok? <==> NestedFrom(ts, a, b + 1)
    decreases b + 1 - pos, 0
  {
    assert Depth(ts, pos + 1) == Depth(ts, pos);
    assert pos < b && Follows(ts[pos], ts[pos + 1]);
    AlternatingWithin(ts, a, b, pos + 1, b);
    NestedJoin(ts, a, pos, pos + 1);
    RangeSafe(ts, pos + 1, b);
    LoopAdditiveStep(ts, pos, b, acc);
    NestedJoin(ts, a, pos + 1, b + 1);
  }

  /** A `*` or `/` in the loop: the next operand is folded in and the loop goes on after it. */
  lemma {:induction false} MultiplicativeSafe(ts: seq<Token>, a: int, pos: int, b: int, acc: Double)
    requires 0 <= a < pos <= b && b < |ts| && Alternating(ts, a, b)
    requires Depth(ts, b + 1) == Depth(ts, a) && Depth(ts, pos) == Depth(ts, a)
    requires EndSlot(ts[pos - 1]) && NestedFrom(ts, a, pos)
    requires ts[pos].Operator? && (ts[pos].op.Multiplication? || ts[pos].op.Division?)
    ensures Loop(ts, pos, b, acc) != Err(OutOfRange)
    ensures Loop(ts, pos, b, acc).Ok? <==> NestedFrom(ts, a, b + 1)
    decreases b + 1 - pos, 0
  {
    OperandAfter(ts, a, pos, b);
    var v := ResolveValue(ts, pos + 1).value;
    var q := SubExpressionEnd(ts, pos + 1).value;
    LoopMultiplicativeStep(ts, pos, b, acc);
    LoopSafe(ts, a, q + 1, b, if ts[pos].op == Multiplication then Mul(acc, v) else Div(acc, v));
  }

  /** The operand after an operator in the loop has a value and ends where the loop can go on. */
  lemma OperandAfter(ts: seq<Token>, a: int, pos: int, b: int)
    requires 0 <= a < pos <= b && b < |ts| && Alternating(ts, a, b)
    requires Depth(ts, b + 1) == Depth(ts, a) && Depth(ts, pos) == Depth(ts, a)
    requires EndSlot(ts[pos - 1]) && NestedFrom(ts, a, pos) && ts[pos].Operator?
    ensures SubExpressionEnd(ts, pos + 1).Ok? && ResolveValue(ts, pos + 1).Ok?
    ensures var q := SubExpressionEnd(ts, pos + 1).value;
      pos < q <= b && EndSlot(ts[q]) && Depth(ts, q + 1) == Depth(ts, a) && NestedFrom(ts, a, q + 1)
    decreases b - pos, 3
  {
    assert Depth(ts, pos + 1) == Depth(ts, pos);
    assert pos < b && Follows(ts[pos], ts[pos + 1]);
    AlternatingWithin(ts, a, b, pos + 1, b);
    NestedJoin(ts, a, pos, pos + 1);
    ValueSafe(ts, pos + 1, b);
    var q := SubExpressionEnd(ts, pos + 1).value;
    NestedAcross(ts, a, pos + 1, q);
  }

  /** An operand that stays above the depth it starts at, and comes back to it, keeps the range nested. */
  lemma NestedAcross(ts: seq<Token>, a: int, p: int, q: int)
    requires 0 <= a <= p <= q < |ts| && NestedFrom(ts, a, p) && Depth(ts, p) == Depth(ts, a)
    requires (forall i | p < i <= q :: Depth(ts, i) > Depth(ts, p)) && Depth(ts, q + 1) == Depth(ts, p)
    ensures NestedFrom(ts, a, q + 1)
  {
  }

  /** Two stretches that start at the same depth are nested from `a` exactly when each is. */
  lemma NestedJoin(ts: seq<Token>, a: int, m: int, c: int)
    requires 0 <= a <= m <= c <= |ts| && Depth(ts, m) >= Depth(ts, a)
    ensures NestedFrom(ts, a, m) && NestedFrom(ts, m, c) ==> NestedFrom(ts, a, c)
    ensures NestedFrom(ts, a, c) && Depth(ts, m) == Depth(ts, a) ==> NestedFrom(ts, a, m) && NestedFrom(ts, m, c)
  {
  }

  /** A `+` or `-` at `pos` hands the rest of the range to `resolveTokenList`. */
  lemma LoopAdditiveStep(ts: seq<Token>, pos: int, b: int, acc: Double)
    requires 0 < pos <= b < |ts| && ts[pos].Operator? && (ts[pos].op.Addition? || ts[pos].op.Subtraction?)
    ensures Loop(ts, pos, b, acc).Ok? <==> Resolve(ts, pos + 1, b).Ok?
    ensures Loop(ts, pos, b, acc).Err? ==> Loop(ts, pos, b, acc).error == Resolve(ts, pos + 1, b).error
  {
  }

  /** A `*` or `/` at `pos` combines the next operand into the accumulator and goes on after it. */
  lemma LoopMultiplicativeStep(ts: seq<Token>, pos: int, b: int, acc: Double)
    requires 0 < pos <= b < |ts| && ts[pos].Operator? && (ts[pos].op.Multiplication? || ts[pos].op.Division?)
    requires ResolveValue(ts, pos + 1).Ok? && SubExpressionEnd(ts, pos + 1).Ok?
    ensures var v := ResolveValue(ts, pos + 1).value;
      Loop(ts, pos, b, acc) ==
      Loop(ts, SubExpressionEnd(ts, pos + 1).value + 1, b, if ts[pos].op == Multiplication then Mul(acc, v) else Div(acc, v))
  {
  }

  /** A balanced alternating range never sends the evaluator outside it, and evaluates exactly when it stays nested. */
  lemma {:induction false} RangeSafe(ts: seq<Token>, a: int, b: int)
    requires 0 <= a <= b < |ts| && Alternating(ts, a, b) && Depth(ts, b + 1) == Depth(ts, a)
    ensures Resolve(ts, a, b) != Err(OutOfRange)
    ensures Resolve(ts, a, b).Ok? <==> NestedFrom(ts, a, b + 1)
    decreases b - a, 2
  {
    ValueSafe(ts, a, b);
    var first := ResolveValue(ts, a).value;
    var q := SubExpressionEnd(ts, a).value;
    LoopSafe(ts, a, q + 1, b, first);
  }

  /**
   * On a well-shaped token list (every list the lexer accepts), evaluating
   * the whole list never indexes outside it, and it raises the
   * unexpected-token logic error exactly when some prefix of the list closes
   * more parentheses than it opens.
   */
  lemma ResolveWellShaped(ts: seq<Token>)
    requires WellShaped(ts)
    ensures Resolve(ts, 0, |ts| - 1).Ok? || Resolve(ts, 0, |ts| - 1).error == UnexpectedToken
    ensures Resolve(ts, 0, |ts| - 1).Ok? <==> WellNested(ts)
  {
    RangeSafe(ts, 0, |ts| - 1);
  }
}
