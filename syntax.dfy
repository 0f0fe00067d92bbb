/**
 * The grammar the evaluator implements, as an abstract syntax with a
 * printer to tokens and a meaning, and the proof that the evaluator gives
 * every printed expression its meaning.  `*` and `/` group to the left:
 * the loop folds each factor into the running result.  `+` and `-` group
 * to the right: the value of everything after the operator is computed
 * first and then combined, so `10 - 2 - 3` means `10 - (2 - 3)`.
 */
module Syntax {
  import opened Tokens
  import opened Doubles
  import opened Evaluator

  /** An operand: a number, or a parenthesised sum. */
  datatype Factor = Literal(v: real) | Paren(inner: Sum)

  /** The factors after the first one of a product, each with its `*` or `/`. */
  datatype Chain = Done | Step(op: OpFunction, f: Factor, next: Chain)

  datatype Product = Product(first: Factor, chain: Chain)

  /** A product, then nothing, or `+`/`-` and the rest of the sum. */
  datatype Sum = Sum(head: Product, tail: Tail)

  datatype Tail = Stop | Plus(rest: Sum) | Minus(rest: Sum)

  predicate IsMulOp(op: OpFunction) {
    op == Multiplication || op == Division
  }

  /* ---- Printing to tokens ---- */

  function PrintFactor(f: Factor): seq<Token> {
    match f
    case Literal(v) => [Value(v)]
    case Paren(s) => [OpenParen] + PrintSum(s) + [CloseParen]
  }

  function PrintChain(c: Chain): seq<Token> {
    match c
    case Done => []
    case Step(op, f, next) => [Operator(op)] + PrintFactor(f) + PrintChain(next)
  }

  function PrintProduct(p: Product): seq<Token> {
    PrintFactor(p.first) + PrintChain(p.chain)
  }

  function PrintSum(s: Sum): seq<Token> {
    PrintProduct(s.head) + PrintTail(s.tail)
  }

  function PrintTail(t: Tail): seq<Token> {
    match t
    case Stop => []
    case Plus(r) => [Operator(Addition)] + PrintSum(r)
    case Minus(r) => [Operator(Subtraction)] + PrintSum(r)
  }

  /* ---- Meaning ---- */

  function EvalFactor(f: Factor): Double
    decreases f
  {
    match f
    case Literal(v) => Finite(v)
    case Paren(s) => EvalSum(s)
  }

  /** A left fold: each factor is combined with the value so far. */
  function FoldChain(acc: Double, c: Chain): Double
    decreases c
  {
    match c
    case Done => acc
    case Step(op, f, next) =>
      FoldChain(if op == Division then Div(acc, EvalFactor(f)) else Mul(acc, EvalFactor(f)), next)
  }

  function EvalTail(x: Double, t: Tail): Double
    decreases t
  {
    match t
    case Stop => x
    case Plus(r) => Add(x, EvalSum(r))
    case Minus(r) => Sub(x, EvalSum(r))
  }

  function EvalSum(s: Sum): Double
    decreases s
  {
    EvalTail(FoldChain(EvalFactor(s.head.first), s.head.chain), s.tail)
  }

  /** Only `*` and `/` appear in a chain. */
  predicate ChainOk(c: Chain) {
    match c
    case Done => true
    case Step(op, f, next) => IsMulOp(op) && FactorOk(f) && ChainOk(next)
  }

  predicate FactorOk(f: Factor) {
    match f
    case Literal(_) => true
    case Paren(s) => SumOk(s)
  }

  predicate SumOk(s: Sum) {
    FactorOk(s.head.first) && ChainOk(s.head.chain) && TailOk(s.tail)
  }

  predicate TailOk(t: Tail) {
    match t
    case Stop => true
    case Plus(r) => SumOk(r)
    case Minus(r) => SumOk(r)
  }

  /* ---- The evaluator on printed expressions ---- */

  /** `w` stands in `ts` from position `k` on. */
  predicate At(ts: seq<Token>, k: int, w: seq<Token>) {
    0 <= k && k + |w| <= |ts| && ts[k..k + |w|] == w
  }

  lemma AtSplit(ts: seq<Token>, k: int, u: seq<Token>, v: seq<Token>)
    requires At(ts, k, u + v)
    ensures At(ts, k, u) && At(ts, k + |u|, v)
  {
    assert ts[k..k + |u|] == (u + v)[..|u|];
    assert ts[k + |u|..k + |u| + |v|] == (u + v)[|u|..];
  }

  lemma AtIndex(ts: seq<Token>, k: int, w: seq<Token>, i: int)
    requires At(ts, k, w) && 0 <= i < |w|
    ensures ts[k + i] == w[i]
  {
    assert ts[k..k + |w|][i] == w[i];
  }

  /** No prefix closes more parentheses than it opens, and the whole closes all it opens. */
  predicate Balanced(w: seq<Token>) {
    WellNested(w) && Depth(w, |w|) == 0
  }

  /** The depth inside a printed sum never drops below where it starts, and ends where it starts. */
  lemma {:induction false} SumNested(s: Sum)
    ensures Balanced(PrintSum(s))
    decreases |PrintSum(s)|, 1
  {
    var fw := PrintFactor(s.head.first);
    var rest := PrintChain(s.head.chain) + PrintTail(s.tail);
    assert PrintSum(s) == fw + rest;
    FactorNested(s.head.first);
    ChainNested(s.head.chain, s.tail);
    NestedAppend(fw, rest);
  }

  lemma {:induction false} FactorNested(f: Factor)
    ensures Balanced(PrintFactor(f))
    decreases |PrintFactor(f)|, 0
  {
    if f.Paren? {
      SumNested(f.inner);
      ParenNested(PrintSum(f.inner));
      assert PrintFactor(f) == [OpenParen] + PrintSum(f.inner) + [CloseParen];
    } else {
      var v := PrintFactor(f);
      assert Depth(v, 1) == 0;
    }
  }

  /** Parentheses around a balanced list keep it balanced. */
  lemma ParenNested(w: seq<Token>)
    requires Balanced(w)
    ensures Balanced([OpenParen] + w + [CloseParen])
  {
    var u := [OpenParen] + w;
    forall i | 0 <= i <= |u|
      ensures Depth(u, i) >= if i == 0 then 0 else 1
    {
      if i > 0 {
        DepthAppend([OpenParen], w, i - 1);
      }
    }
    var v := u + [CloseParen];
    forall i | 0 <= i <= |v|
      ensures Depth(v, i) >= 0
    {
      if i <= |u| {
        DepthPrefixAt(v, u, i);
      } else {
        DepthPrefixAt(v, u, |u|);
        DepthAppend([OpenParen], w, |w|);
      }
    }
    DepthPrefixAt(v, u, |u|);
    DepthAppend([OpenParen], w, |w|);
  }

  lemma {:induction false} ChainNested(c: Chain, t: Tail)
    ensures Balanced(PrintChain(c) + PrintTail(t))
    decreases |PrintChain(c) + PrintTail(t)|, 3
  {
    match c
    case Done =>
      assert PrintChain(c) + PrintTail(t) == PrintTail(t);
      TailNested(t);
    case Step(op, f, next) =>
      var fw := PrintFactor(f);
      var rest := PrintChain(next) + PrintTail(t);
      assert PrintChain(c) + PrintTail(t) == [Operator(op)] + (fw + rest);
      FactorNested(f);
      ChainNested(next, t);
      NestedAppend(fw, rest);
      OperatorNested(op, fw + rest);
  }

  lemma {:induction false} TailNested(t: Tail)
    ensures Balanced(PrintTail(t))
    decreases |PrintTail(t)|, 2
  {
    if !t.Stop? {
      var op := if t.Plus? then Addition else Subtraction;
      assert PrintTail(t) == [Operator(op)] + PrintSum(t.rest);
      SumNested(t.rest);
      OperatorNested(op, PrintSum(t.rest));
    }
  }

  /** An operator in front changes no depth. */
  lemma OperatorNested(op: OpFunction, w: seq<Token>)
    requires Balanced(w)
    ensures Balanced([Operator(op)] + w)
  {
    assert Balanced([Operator(op)]) by {
      assert Depth([Operator(op)], 1) == 0;
    }
    NestedAppend([Operator(op)], w);
  }

  /** Concatenating two lists whose prefixes never close more than they open keeps that, and adds their depths. */
  lemma NestedAppend(a: seq<Token>, b: seq<Token>)
    requires WellNested(a) && WellNested(b)
    ensures WellNested(a + b)
    ensures Depth(a + b, |a + b|) == Depth(a, |a|) + Depth(b, |b|)
  {
    DepthAppend(a, b, |b|);
    forall i | 0 <= i <= |a + b|
      ensures Depth(a + b, i) >= 0
    {
      if i <= |a| {
        DepthPrefixAt(a + b, a, i);
      } else {
        DepthAppend(a, b, i - |a|);
      }
    }
  }

  /** Scanning over a nested stretch of tokens while some parenthesis is open ends where the stretch ends. */
  lemma {:induction false} ScanOver(ts: seq<Token>, pos: int, balance: int, w: seq<Token>, i: int)
    requires 0 < pos && At(ts, pos, w) && balance > 0 && 0 <= i <= |w|
    requires WellNested(w)
    ensures Scan(ts, pos + i, balance + Depth(w, i)) == Scan(ts, pos + |w|, balance + Depth(w, |w|))
    decreases |w| - i
  {
    if i < |w| {
      AtIndex(ts, pos, w, i);
      ScanOver(ts, pos, balance, w, i + 1);
    }
  }

  /** The evaluator reads a printed factor as its value, and finds its end `last`. */
  lemma {:induction false} FactorEval(ts: seq<Token>, k: int, last: int, f: Factor)
    requires At(ts, k, PrintFactor(f)) && FactorOk(f) && last == k + |PrintFactor(f)| - 1
    ensures ResolveValue(ts, k) == Ok(EvalFactor(f))
    ensures SubExpressionEnd(ts, k) == Ok(last)
    decreases |PrintFactor(f)|, 0
  {
    AtIndex(ts, k, PrintFactor(f), 0);
    FactorEnd(ts, k, last, f);
    if f.Paren? {
      var w := PrintSum(f.inner);
      assert PrintFactor(f) == [OpenParen] + (w + [CloseParen]);
      AtSplit(ts, k, [OpenParen], w + [CloseParen]);
      AtSplit(ts, k + 1, w, [CloseParen]);
      SumEval(ts, k + 1, last - 1, f.inner);
    }
  }

  /** A printed factor ends at its last token: a `(` is matched by the `)` that closes the printed sum. */
  lemma FactorEnd(ts: seq<Token>, k: int, last: int, f: Factor)
    requires At(ts, k, PrintFactor(f)) && last == k + |PrintFactor(f)| - 1
    ensures SubExpressionEnd(ts, k) == Ok(last)
  {
    AtIndex(ts, k, PrintFactor(f), 0);
    if f.Paren? {
      var w := PrintSum(f.inner);
      assert PrintFactor(f) == [OpenParen] + (w + [CloseParen]);
      AtSplit(ts, k, [OpenParen], w + [CloseParen]);
      AtSplit(ts, k + 1, w, [CloseParen]);
      AtIndex(ts, k + 1 + |w|, [CloseParen], 0);
      SumNested(f.inner);
      ScanOver(ts, k + 1, 1, w, 0);
      assert last == k + 1 + |w|;
      assert Scan(ts, last, 1) == Ok(last);
    }
  }

  /** The evaluator gives a printed sum its meaning, wherever the sum stands in the token list. */
  lemma {:induction false} SumEval(ts: seq<Token>, k: int, end: int, s: Sum)
    requires At(ts, k, PrintSum(s)) && SumOk(s) && end == k + |PrintSum(s)| - 1
    ensures Resolve(ts, k, end) == Ok(EvalSum(s))
    decreases |PrintSum(s)|, 1
  {
    var fw := PrintFactor(s.head.first);
    var rest := PrintChain(s.head.chain) + PrintTail(s.tail);
    assert PrintSum(s) == fw + rest;
    AtSplit(ts, k, fw, rest);
    var v := EvalFactor(s.head.first);
    var p := k + |fw|;
    FactorEval(ts, k, p - 1, s.head.first);
    ResolveStep(ts, k, end, v, p);
    ChainEval(ts, p, end, v, s.head.chain, s.tail);
    assert EvalSum(s) == EvalTail(FoldChain(v, s.head.chain), s.tail);
  }

  /** `resolveTokenList` takes the first operand and hands what follows it to the operator loop. */
  lemma ResolveStep(ts: seq<Token>, k: int, end: int, v: Double, next: int)
    requires 0 <= k < |ts| && ResolveValue(ts, k) == Ok(v) && SubExpressionEnd(ts, k) == Ok(next - 1)
    ensures Resolve(ts, k, end) == Loop(ts, next, end, v)
  {
  }

  /** The operator loop folds a printed chain into the running value, then combines it with the printed tail. */
  lemma {:induction false} ChainEval(ts: seq<Token>, pos: int, end: int, acc: Double, c: Chain, t: Tail)
    requires 0 < pos && At(ts, pos, PrintChain(c) + PrintTail(t)) && ChainOk(c) && TailOk(t)
    requires end == pos + |PrintChain(c) + PrintTail(t)| - 1
    ensures Loop(ts, pos, end, acc) == Ok(EvalTail(FoldChain(acc, c), t))
    decreases |PrintChain(c) + PrintTail(t)|, 3
  {
    match c
    case Done =>
      assert PrintChain(c) + PrintTail(t) == PrintTail(t);
      TailEval(ts, pos, end, acc, t);
    case Step(op, f, next) =>
      var fw := PrintFactor(f);
      var rest := PrintChain(next) + PrintTail(t);
      var w := PrintChain(c) + PrintTail(t);
      assert w == [Operator(op)] + (fw + rest);
      AtIndex(ts, pos, w, 0);
      AtSplit(ts, pos, [Operator(op)], fw + rest);
      AtSplit(ts, pos + 1, fw, rest);
      StepEval(ts, pos, end, acc, op, f, next, t);
  }

  /** A printed `*` or `/` factor is folded into the running value before the loop goes on. */
  lemma {:induction false} StepEval(ts: seq<Token>, pos: int, end: int, acc: Double, op: OpFunction, f: Factor, next: Chain, t: Tail)
    requires 0 < pos < |ts| && ts[pos] == Operator(op) && IsMulOp(op)
    requires At(ts, pos + 1, PrintFactor(f)) && At(ts, pos + 1 + |PrintFactor(f)|, PrintChain(next) + PrintTail(t))
    requires FactorOk(f) && ChainOk(next) && TailOk(t)
    requires end == pos + |PrintFactor(f)| + |PrintChain(next) + PrintTail(t)|
    ensures Loop(ts, pos, end, acc) == Ok(EvalTail(FoldChain(acc, Step(op, f, next)), t))
    decreases |PrintFactor(f)| + |PrintChain(next) + PrintTail(t)| + 1, 2
  {
    var q := pos + |PrintFactor(f)|;
    var v := EvalFactor(f);
    var acc' := if op == Division then Div(acc, v) else Mul(acc, v);
    FactorEval(ts, pos + 1, q, f);
    LoopStep(ts, pos, end, acc, v, q);
    ChainEval(ts, q + 1, end, acc', next, t);
  }

  /** One `*` or `/` step of the operator loop. */
  lemma LoopStep(ts: seq<Token>, pos: int, end: int, acc: Double, v: Double, q: int)
    requires 0 < pos < |ts| && pos <= end && ts[pos].Operator? && IsMulOp(ts[pos].op)
    requires ResolveValue(ts, pos + 1) == Ok(v) && SubExpressionEnd(ts, pos + 1) == Ok(q)
    ensures Loop(ts, pos, end, acc) == Loop(ts, q + 1, end, if ts[pos].op == Division then Div(acc, v) else Mul(acc, v))
  {
  }

  /** A printed `+` or `-` tail combines the running value with the value of the rest of the sum. */
  lemma {:induction false} TailEval(ts: seq<Token>, pos: int, end: int, acc: Double, t: Tail)
    requires 0 < pos && At(ts, pos, PrintTail(t)) && TailOk(t) && end == pos + |PrintTail(t)| - 1
    ensures Loop(ts, pos, end, acc) == Ok(EvalTail(acc, t))
    decreases |PrintTail(t)|, 2
  {
    if !t.Stop? {
      var op := if t.Plus? then Addition else Subtraction;
      assert PrintTail(t) == [Operator(op)] + PrintSum(t.rest);
      AtIndex(ts, pos, PrintTail(t), 0);
      AtSplit(ts, pos, [Operator(op)], PrintSum(t.rest));
      SumEval(ts, pos + 1, end, t.rest);
    }
  }

  /** Evaluating the tokens of a printed sum gives its meaning. */
  lemma EvaluatesPrinted(s: Sum)
    requires SumOk(s)
    ensures Resolve(PrintSum(s), 0, |PrintSum(s)| - 1) == Ok(EvalSum(s))
  {
    assert PrintSum(s)[0..|PrintSum(s)|] == PrintSum(s);
    SumEval(PrintSum(s), 0, |PrintSum(s)| - 1, s);
  }

  function Lit(v: real): Product {
    Product(Literal(v), Done)
  }

  /** `10 - 2 - 3` groups to the right and evaluates to 11. */
  lemma MinusGroupsRight()
    ensures var s := Sum(Lit(10.0), Minus(Sum(Lit(2.0), Minus(Sum(Lit(3.0), Stop)))));
      PrintSum(s) == [Value(10.0), Operator(Subtraction), Value(2.0), Operator(Subtraction), Value(3.0)] &&
      Resolve(PrintSum(s), 0, 4) == Ok(Finite(11.0))
  {
    var s := Sum(Lit(10.0), Minus(Sum(Lit(2.0), Minus(Sum(Lit(3.0), Stop)))));
    EvaluatesPrinted(s);
  }

  /** `8 / 2 / 2` groups to the left and evaluates to 2. */
  lemma DivisionGroupsLeft()
    ensures var s := Sum(Product(Literal(8.0), Step(Division, Literal(2.0), Step(Division, Literal(2.0), Done))), Stop);
      PrintSum(s) == [Value(8.0), Operator(Division), Value(2.0), Operator(Division), Value(2.0)] &&
      Resolve(PrintSum(s), 0, 4) == Ok(Finite(2.0))
  {
    var s := Sum(Product(Literal(8.0), Step(Division, Literal(2.0), Step(Division, Literal(2.0), Done))), Stop);
    EvaluatesPrinted(s);
  }
}
