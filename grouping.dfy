/**
 * Conventional grouping, and an evaluator that follows it.  As written, the
 * operator loop combines the running value with the value of EVERYTHING
 * after a `+` or `-`, so `10 - 2 - 3` is `10 - (2 - 3)`, which is 11.  Here
 * a `+` or `-` adds or subtracts only the product that follows it, and the
 * loop goes on: sums and differences group to the left, as products and
 * quotients already do, and `10 - 2 - 3` is 5.
 */
module Grouping {
  import opened Tokens
  import opened Doubles
  import opened Evaluator
  import opened Syntax

  /* ---- The conventional meaning ---- */

  function ConvFactor(f: Factor): Double
    decreases f
  {
    match f
    case Literal(v) => Finite(v)
    case Paren(s) => ConvSum(s)
  }

  /** A left fold of the factors of a product. */
  function ConvChain(acc: Double, c: Chain): Double
    decreases c
  {
    match c
    case Done => acc
    case Step(op, f, next) =>
      ConvChain(if op == Division then Div(acc, ConvFactor(f)) else Mul(acc, ConvFactor(f)), next)
  }

  function ConvProduct(p: Product): Double
    decreases p
  {
    ConvChain(ConvFactor(p.first), p.chain)
  }

  /** A left fold of the products of a sum: each is added to or subtracted from the value so far. */
  function ConvTail(acc: Double, t: Tail): Double
    decreases t
  {
    match t
    case Stop => acc
    case Plus(r) => ConvTail(Add(acc, ConvProduct(r.head)), r.tail)
    case Minus(r) => ConvTail(Sub(acc, ConvProduct(r.head)), r.tail)
  }

  function ConvSum(s: Sum): Double
    decreases s
  {
    ConvTail(ConvProduct(s.head), s.tail)
  }

  /* ---- The corrected evaluator ---- */

  /** The pending `+` or `-` applied to the sum so far and the finished product. */
  function Combine(acc: Double, op: OpFunction, term: Double): Double {
    if op == Subtraction then Sub(acc, term) else Add(acc, term)
  }

  /** `resolveValueAtPos`, with a parenthesised sub-expression resolved by the corrected evaluator. */
  function IntendedValue(ts: seq<Token>, p: int): Result<Double>
    decreases |ts| - p, 1
  {
    if !(0 <= p < |ts|) then Err(OutOfRange)
    else match ts[p]
      case Value(v) => Ok(Finite(v))
      case OpenParen => (
        match SubExpressionEnd(ts, p)
        case Err(e) => Err(e)
        case Ok(q) => IntendedResolve(ts, p + 1, q - 1))
      case _ => Err(UnexpectedToken)
  }

  /** `resolveTokenList` with left-to-right sums: the first operand starts the first product of a sum that is still 0. */
  function IntendedResolve(ts: seq<Token>, start: int, end: int): Result<Double>
    decreases |ts| - start, 2
  {
    if !(0 <= start < |ts|) then Err(OutOfRange)
    else match IntendedValue(ts, start)
      case Err(e) => Err(e)
      case Ok(first) => (
        match SubExpressionEnd(ts, start)
        case Err(e) => Err(e)
        case Ok(q) => IntendedLoop(ts, q + 1, end, Finite(0.0), Addition, first))
  }

  /**
   * The corrected operator loop: `acc` is the sum of the finished products,
   * `op` the `+` or `-` before the product under way, and `term` its value
   * so far.  A `*` or `/` folds the next operand into `term`; a `+` or `-`
   * finishes the product and starts the next one.
   */
  function IntendedLoop(ts: seq<Token>, pos: int, end: int, acc: Double, op: OpFunction, term: Double): Result<Double>
    requires 0 < pos
    decreases |ts| - pos, 0
  {
    if pos >= end + 1 then Ok(Combine(acc, op, term))
    else if pos >= |ts| then Err(OutOfRange)
    else match ts[pos]
      case Operator(o) => (
        match IntendedValue(ts, pos + 1)
        case Err(e) => Err(e)
        case Ok(v) => (
          match SubExpressionEnd(ts, pos + 1)
          case Err(e) => Err(e)
          case Ok(q) =>
            if IsMulOp(o) then IntendedLoop(ts, q + 1, end, acc, op, if o == Multiplication then Mul(term, v) else Div(term, v))
            else IntendedLoop(ts, q + 1, end, Combine(acc, op, term), o, v)))
      case _ => Err(UnexpectedToken)
  }

  /* ---- The corrected evaluator gives every printed expression its conventional meaning ---- */

  /** Adding to 0 leaves every double as it is (zero carries no sign in this model). */
  lemma AddZero(x: Double)
    ensures Add(Finite(0.0), x) == x
  {
  }

  lemma IntendedFirst(ts: seq<Token>, k: int, end: int, v: Double, next: int)
    requires 0 <= k < |ts| && IntendedValue(ts, k) == Ok(v) && SubExpressionEnd(ts, k) == Ok(next - 1)
    ensures IntendedResolve(ts, k, end) == IntendedLoop(ts, next, end, Finite(0.0), Addition, v)
  {
  }

  /** A `*` or `/` of the corrected loop folds the next operand into the product under way. */
  lemma ProductStep(ts: seq<Token>, pos: int, end: int, acc: Double, op: OpFunction, term: Double, v: Double, q: int)
    requires 0 < pos < |ts| && pos <= end && ts[pos].Operator? && IsMulOp(ts[pos].op)
    requires IntendedValue(ts, pos + 1) == Ok(v) && SubExpressionEnd(ts, pos + 1) == Ok(q)
    ensures IntendedLoop(ts, pos, end, acc, op, term) ==
      IntendedLoop(ts, q + 1, end, acc, op, if ts[pos].op == Multiplication then Mul(term, v) else Div(term, v))
  {
  }

  /** A `+` or `-` of the corrected loop finishes the product under way and starts the next with the next operand. */
  lemma SumStep(ts: seq<Token>, pos: int, end: int, acc: Double, op: OpFunction, term: Double, v: Double, q: int)
    requires 0 < pos < |ts| && pos <= end && ts[pos].Operator? && !IsMulOp(ts[pos].op)
    requires IntendedValue(ts, pos + 1) == Ok(v) && SubExpressionEnd(ts, pos + 1) == Ok(q)
    ensures IntendedLoop(ts, pos, end, acc, op, term) == IntendedLoop(ts, q + 1, end, Combine(acc, op, term), ts[pos].op, v)
  {
  }

  lemma {:induction false} FactorMeans(ts: seq<Token>, k: int, last: int, f: Factor)
    requires At(ts, k, PrintFactor(f)) && FactorOk(f) && last == k + |PrintFactor(f)| - 1
    ensures IntendedValue(ts, k) == Ok(ConvFactor(f))
    decreases |PrintFactor(f)|, 0
  {
    AtIndex(ts, k, PrintFactor(f), 0);
    FactorEnd(ts, k, last, f);
    if f.Paren? {
      var w := PrintSum(f.inner);
      assert PrintFactor(f) == [OpenParen] + (w + [CloseParen]);
      AtSplit(ts, k, [OpenParen], w + [CloseParen]);
      AtSplit(ts, k + 1, w, [CloseParen]);
      SumMeans(ts, k + 1, last - 1, f.inner);
    }
  }

  lemma {:induction false} SumMeans(ts: seq<Token>, k: int, end: int, s: Sum)
    requires At(ts, k, PrintSum(s)) && SumOk(s) && end == k + |PrintSum(s)| - 1
    ensures IntendedResolve(ts, k, end) == Ok(ConvSum(s))
    decreases |PrintSum(s)|, 1
  {
    var fw := PrintFactor(s.head.first);
    var rest := PrintChain(s.head.chain) + PrintTail(s.tail);
    assert PrintSum(s) == fw + rest;
    AtSplit(ts, k, fw, rest);
    var v := ConvFactor(s.head.first);
    var p := k + |fw|;
    FactorMeans(ts, k, p - 1, s.head.first);
    FactorEnd(ts, k, p - 1, s.head.first);
    IntendedFirst(ts, k, end, v, p);
    ChainMeans(ts, p, end, Finite(0.0), Addition, v, s.head.chain, s.tail);
    AddZero(ConvChain(v, s.head.chain));
  }

  /** The loop folds a printed chain into the product under way, then goes on with the printed tail. */
  lemma {:induction false} ChainMeans(ts: seq<Token>, pos: int, end: int, acc: Double, op: OpFunction, term: Double, c: Chain, t: Tail)
    requires 0 < pos && At(ts, pos, PrintChain(c) + PrintTail(t)) && ChainOk(c) && TailOk(t)
    requires end == pos + |PrintChain(c) + PrintTail(t)| - 1
    ensures IntendedLoop(ts, pos, end, acc, op, term) == Ok(ConvTail(Combine(acc, op, ConvChain(term, c)), t))
    decreases |PrintChain(c) + PrintTail(t)|, 3
  {
    match c
    case Done =>
      assert PrintChain(c) + PrintTail(t) == PrintTail(t);
      TailMeans(ts, pos, end, acc, op, term, t);
    case Step(o, f, next) =>
      var fw := PrintFactor(f);
      var rest := PrintChain(next) + PrintTail(t);
      var w := PrintChain(c) + PrintTail(t);
      assert w == [Operator(o)] + (fw + rest);
      AtIndex(ts, pos, w, 0);
      AtSplit(ts, pos, [Operator(o)], fw + rest);
      AtSplit(ts, pos + 1, fw, rest);
      ProductStepMeans(ts, pos, end, acc, op, term, o, f, next, t);
  }

  /** A printed `*` or `/` factor is folded into the product under way. */
  lemma {:induction false} ProductStepMeans(ts: seq<Token>, pos: int, end: int, acc: Double, op: OpFunction, term: Double,
                                            o: OpFunction, f: Factor, next: Chain, t: Tail)
    requires 0 < pos < |ts| && ts[pos] == Operator(o) && IsMulOp(o)
    requires At(ts, pos + 1, PrintFactor(f)) && At(ts, pos + 1 + |PrintFactor(f)|, PrintChain(next) + PrintTail(t))
    requires FactorOk(f) && ChainOk(next) && TailOk(t)
    requires end == pos + |PrintFactor(f)| + |PrintChain(next) + PrintTail(t)|
    ensures IntendedLoop(ts, pos, end, acc, op, term) == Ok(ConvTail(Combine(acc, op, ConvChain(term, Step(o, f, next))), t))
    decreases |PrintFactor(f)| + |PrintChain(next) + PrintTail(t)| + 1, 2
  {
    var q := pos + |PrintFactor(f)|;
    var v := ConvFactor(f);
    var term' := if o == Division then Div(term, v) else Mul(term, v);
    FactorMeans(ts, pos + 1, q, f);
    FactorEnd(ts, pos + 1, q, f);
    ProductStep(ts, pos, end, acc, op, term, v, q);
    ChainMeans(ts, q + 1, end, acc, op, term', next, t);
  }

  /** A printed `+` or `-` tail: the product under way is finished and the next one starts. */
  lemma {:induction false} TailMeans(ts: seq<Token>, pos: int, end: int, acc: Double, op: OpFunction, term: Double, t: Tail)
    requires 0 < pos && At(ts, pos, PrintTail(t)) && TailOk(t) && end == pos + |PrintTail(t)| - 1
    ensures IntendedLoop(ts, pos, end, acc, op, term) == Ok(ConvTail(Combine(acc, op, term), t))
    decreases |PrintTail(t)|, 2
  {
    match t
    case Stop =>
    case Plus(r) =>
      assert PrintTail(t) == [Operator(Addition)] + PrintSum(r);
      AtIndex(ts, pos, PrintTail(t), 0);
      AtSplit(ts, pos, [Operator(Addition)], PrintSum(r));
      SumStepMeans(ts, pos, end, acc, op, term, Addition, r);
    case Minus(r) =>
      assert PrintTail(t) == [Operator(Subtraction)] + PrintSum(r);
      AtIndex(ts, pos, PrintTail(t), 0);
      AtSplit(ts, pos, [Operator(Subtraction)], PrintSum(r));
      SumStepMeans(ts, pos, end, acc, op, term, Subtraction, r);
  }

  /** The `+` or `-` at `pos` finishes the product under way; the printed sum after it is folded in product by product. */
  lemma {:induction false} SumStepMeans(ts: seq<Token>, pos: int, end: int, acc: Double, op: OpFunction, term: Double,
                                        o: OpFunction, r: Sum)
    requires 0 < pos < |ts| && ts[pos] == Operator(o) && !IsMulOp(o)
    requires At(ts, pos + 1, PrintSum(r)) && SumOk(r) && end == pos + |PrintSum(r)|
    ensures IntendedLoop(ts, pos, end, acc, op, term) ==
      Ok(ConvTail(Combine(Combine(acc, op, term), o, ConvProduct(r.head)), r.tail))
    decreases |PrintSum(r)| + 1, 1
  {
    SumAt(ts, pos + 1, r);
    var q := pos + |PrintFactor(r.head.first)|;
    var v := ConvFactor(r.head.first);
    FactorMeans(ts, pos + 1, q, r.head.first);
    FactorEnd(ts, pos + 1, q, r.head.first);
    SumStep(ts, pos, end, acc, op, term, v, q);
    assert ConvProduct(r.head) == ConvChain(v, r.head.chain);
    ChainMeans(ts, q + 1, end, Combine(acc, op, term), o, v, r.head.chain, r.tail);
  }

  /** A printed sum standing at `k` splits into its first factor and what follows it. */
  lemma SumAt(ts: seq<Token>, k: int, r: Sum)
    requires At(ts, k, PrintSum(r))
    ensures At(ts, k, PrintFactor(r.head.first))
    ensures At(ts, k + |PrintFactor(r.head.first)|, PrintChain(r.head.chain) + PrintTail(r.tail))
    ensures |PrintSum(r)| == |PrintFactor(r.head.first)| + |PrintChain(r.head.chain) + PrintTail(r.tail)|
  {
    assert PrintSum(r) == PrintFactor(r.head.first) + (PrintChain(r.head.chain) + PrintTail(r.tail));
    AtSplit(ts, k, PrintFactor(r.head.first), PrintChain(r.head.chain) + PrintTail(r.tail));
  }

  /** Evaluating the tokens of a printed sum with the corrected evaluator gives its conventional meaning. */
  lemma IntendedMeansPrinted(s: Sum)
    requires SumOk(s)
    ensures IntendedResolve(PrintSum(s), 0, |PrintSum(s)| - 1) == Ok(ConvSum(s))
  {
    assert PrintSum(s)[0..|PrintSum(s)|] == PrintSum(s);
    SumMeans(PrintSum(s), 0, |PrintSum(s)| - 1, s);
  }

  /** `10 - 2 - 3`: 11 as written, 5 when differences group to the left. */
  lemma MinusGroupsLeft()
    ensures var s := Sum(Lit(10.0), Minus(Sum(Lit(2.0), Minus(Sum(Lit(3.0), Stop)))));
      PrintSum(s) == [Value(10.0), Operator(Subtraction), Value(2.0), Operator(Subtraction), Value(3.0)] &&
      IntendedResolve(PrintSum(s), 0, 4) == Ok(Finite(5.0)) && Resolve(PrintSum(s), 0, 4) == Ok(Finite(11.0))
  {
    var s := Sum(Lit(10.0), Minus(Sum(Lit(2.0), Minus(Sum(Lit(3.0), Stop)))));
    IntendedMeansPrinted(s);
    MinusGroupsRight();
  }
}
