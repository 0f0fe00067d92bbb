/**
 * Reading a token list back into the syntax of `Syntax`: every token list
 * the lexer accepts and that nests properly is the print of exactly the tree
 * `Parse` builds.  So the meaning proved for printed trees (as written, and
 * with the corrected grouping) is the meaning of every such expression.
 */
module Parsing {
  import opened Tokens
  import opened Lexer
  import opened Evaluator
  import opened Syntax
  import opened Grouping

  /** Where the operand at `p` ends: the matching `)` for a `(`, `p` itself otherwise. */
  function OperandEnd(ts: seq<Token>, p: int): (q: int)
    ensures p <= q
  {
    match SubExpressionEnd(ts, p)
    case Ok(q) => q
    case Err(_) => p
  }

  /** The operand at `p`. */
  function ParseFactor(ts: seq<Token>, p: int): Factor
    decreases |ts| - p, 1
  {
    if 0 <= p < |ts| && ts[p].OpenParen? then Paren(ParseSum(ts, p + 1, OperandEnd(ts, p) - 1))
    else if 0 <= p < |ts| && ts[p].Value? then Literal(ts[p].value)
    else Literal(0.0)
  }

  /** The sum `ts[a..b]` (both ends included): its first operand, then what follows it. */
  function ParseSum(ts: seq<Token>, a: int, b: int): Sum
    decreases |ts| - a, 2
  {
    if 0 <= a <= b < |ts| then
      var r := ParseRest(ts, OperandEnd(ts, a) + 1, b);
      Sum(Product(ParseFactor(ts, a), r.0), r.1)
    else Sum(Product(Literal(0.0), Done), Stop)
  }

  /** From the operator at `p` to `b`: the `*` and `/` factors of the current product, then the tail. */
  function ParseRest(ts: seq<Token>, p: int, b: int): (Chain, Tail)
    decreases |ts| - p, 0
  {
    if !(0 < p < b < |ts|) || !ts[p].Operator? then (Done, Stop)
    else if ts[p].op == Addition then (Done, Plus(ParseSum(ts, p + 1, b)))
    else if ts[p].op == Subtraction then (Done, Minus(ParseSum(ts, p + 1, b)))
    else
      var r := ParseRest(ts, OperandEnd(ts, p + 1) + 1, b);
      (Step(ts[p].op, ParseFactor(ts, p + 1), r.0), r.1)
  }

  function Parse(ts: seq<Token>): Sum {
    ParseSum(ts, 0, |ts| - 1)
  }

  /* ---- Parsing inverts printing ---- */

  /** What is parsed from `p` to `b` is well formed and prints back to `ts[p..b]`. */
  predicate RestPrints(ts: seq<Token>, p: int, b: int)
    requires 0 <= p <= b + 1 <= |ts|
  {
    var r := ParseRest(ts, p, b);
    ChainOk(r.0) && TailOk(r.1) && PrintChain(r.0) + PrintTail(r.1) == ts[p..b + 1]
  }

  /** The operand at `p` of a balanced, nested, alternating stretch prints back to its tokens `ts[p..q]`. */
  lemma {:induction false} FactorParses(ts: seq<Token>, p: int, b: int)
    requires 0 <= p <= b < |ts| && Alternating(ts, p, b) && Depth(ts, b + 1) == Depth(ts, p) && NestedFrom(ts, p, b + 1)
    ensures var q := OperandEnd(ts, p);
      q <= b && EndSlot(ts[q]) && Depth(ts, q + 1) == Depth(ts, p) &&
      (forall i | p < i <= q :: Depth(ts, i) > Depth(ts, p)) &&
      FactorOk(ParseFactor(ts, p)) && PrintFactor(ParseFactor(ts, p)) == ts[p..q + 1]
    decreases |ts| - p, 1
  {
    ValueSafe(ts, p, b);
    var q := OperandEnd(ts, p);
    if ts[p].OpenParen? {
      assert p < q && ts[q].CloseParen? by { SubExpressionEndMatches(ts, p); }
      assert Depth(ts, p + 1) == Depth(ts, p) + 1;
      assert p < b && Follows(ts[p], ts[p + 1]);
      assert Follows(ts[q - 1], ts[q]);
      assert Depth(ts, q + 1) == Depth(ts, q) - 1;
      AlternatingWithin(ts, p, b, p + 1, q - 1);
      SumParses(ts, p + 1, q - 1);
      SliceParen(ts, p, q);
    } else {
      assert ts[p..q + 1] == [ts[p]];
    }
  }

  /** A balanced, nested, alternating range prints back from the tree parsed from it. */
  lemma {:induction false} SumParses(ts: seq<Token>, a: int, b: int)
    requires 0 <= a <= b < |ts| && Alternating(ts, a, b) && Depth(ts, b + 1) == Depth(ts, a) && NestedFrom(ts, a, b + 1)
    ensures SumOk(ParseSum(ts, a, b)) && PrintSum(ParseSum(ts, a, b)) == ts[a..b + 1]
    decreases |ts| - a, 2
  {
    FactorParses(ts, a, b);
    var e := OperandEnd(ts, a);
    var f := ParseFactor(ts, a);
    var r := ParseRest(ts, e + 1, b);
    NestedAcross(ts, a, a, e);
    RestParses(ts, a, e + 1, b);
    SumStep(ts, a, b);
    SumPrintsBack(f, r.0, r.1);
    SliceSplit(ts, a, e, b);
  }

  /** After an operand that ends at depth `Depth(ts, a)`, the rest of the range prints back from what is parsed from it. */
  lemma {:induction false} RestParses(ts: seq<Token>, a: int, p: int, b: int)
    requires 0 <= a < p <= b + 1 && b < |ts| && Alternating(ts, a, b)
    requires Depth(ts, b + 1) == Depth(ts, a) && Depth(ts, p) == Depth(ts, a)
    requires EndSlot(ts[p - 1]) && NestedFrom(ts, a, b + 1)
    ensures RestPrints(ts, p, b)
    decreases |ts| - p, 2
  {
    if p <= b {
      assert Follows(ts[p - 1], ts[p]);
      assert Depth(ts, p + 1) == Depth(ts, p) + Delta(ts[p]);
      assert Depth(ts, p + 1) >= Depth(ts, a);
      if ts[p].op == Addition || ts[p].op == Subtraction {
        AdditiveParses(ts, a, p, b);
      } else {
        MultiplicativeParses(ts, a, p, b);
      }
    }
  }

  /** A `+` or `-`: the rest of the range is one sum. */
  lemma {:induction false} AdditiveParses(ts: seq<Token>, a: int, p: int, b: int)
    requires 0 <= a < p <= b && b < |ts| && Alternating(ts, a, b)
    requires Depth(ts, b + 1) == Depth(ts, a) && Depth(ts, p) == Depth(ts, a)
    requires EndSlot(ts[p - 1]) && NestedFrom(ts, a, b + 1)
    requires ts[p].Operator? && (ts[p].op == Addition || ts[p].op == Subtraction)
    ensures RestPrints(ts, p, b)
    decreases |ts| - p, 1
  {
    assert Depth(ts, p + 1) == Depth(ts, p);
    assert p < b && Follows(ts[p], ts[p + 1]);
    AlternatingWithin(ts, a, b, p + 1, b);
    SumParses(ts, p + 1, b);
    SliceSplit(ts, p, p, b);
  }

  /** A `*` or `/`: the next operand joins the product and the rest is parsed after it. */
  lemma {:induction false} MultiplicativeParses(ts: seq<Token>, a: int, p: int, b: int)
    requires 0 <= a < p <= b && b < |ts| && Alternating(ts, a, b)
    requires Depth(ts, b + 1) == Depth(ts, a) && Depth(ts, p) == Depth(ts, a)
    requires EndSlot(ts[p - 1]) && NestedFrom(ts, a, b + 1)
    requires ts[p].Operator? && (ts[p].op == Multiplication || ts[p].op == Division)
    ensures RestPrints(ts, p, b)
    decreases |ts| - p, 1
  {
    assert Depth(ts, p + 1) == Depth(ts, p);
    assert p < b && Follows(ts[p], ts[p + 1]);
    AlternatingWithin(ts, a, b, p + 1, b);
    NestedJoin(ts, a, p + 1, b + 1);
    var e := OperandEnd(ts, p + 1);
    var f := ParseFactor(ts, p + 1);
    assert e <= b && EndSlot(ts[e]) && Depth(ts, e + 1) == Depth(ts, a) && PrintFactor(f) == ts[p + 1..e + 1] && FactorOk(f) by {
      FactorParses(ts, p + 1, b);
    }
    RestParses(ts, a, e + 1, b);
    StepPrints(ts, p, e, b);
  }

  /** One more `*` or `/` factor, parsed and printing back, in front of a rest that prints back. */
  lemma StepPrints(ts: seq<Token>, p: int, e: int, b: int)
    requires 0 < p < e <= b < |ts| && ts[p].Operator? && IsMulOp(ts[p].op) && e == OperandEnd(ts, p + 1)
    requires FactorOk(ParseFactor(ts, p + 1)) && PrintFactor(ParseFactor(ts, p + 1)) == ts[p + 1..e + 1]
    requires RestPrints(ts, e + 1, b)
    ensures RestPrints(ts, p, b)
  {
    var f := ParseFactor(ts, p + 1);
    var r := ParseRest(ts, e + 1, b);
    MultiplicativeStep(ts, p, b);
    StepPrintsBack(ts[p].op, f, r.0, r.1);
    SliceAround(ts, p, e, b);
  }

  /** A `*` or `/` step prints as its operator, its factor and what follows. */
  lemma StepPrintsBack(op: OpFunction, f: Factor, c: Chain, t: Tail)
    requires IsMulOp(op) && FactorOk(f) && ChainOk(c)
    ensures ChainOk(Step(op, f, c))
    ensures PrintChain(Step(op, f, c)) + PrintTail(t) == [Operator(op)] + (PrintFactor(f) + (PrintChain(c) + PrintTail(t)))
  {
  }

  lemma SliceAround(ts: seq<Token>, p: int, e: int, b: int)
    requires 0 <= p < e <= b < |ts|
    ensures ts[p..b + 1] == [ts[p]] + (ts[p + 1..e + 1] + ts[e + 1..b + 1])
  {
  }

  /** How `ParseSum` reads a range: its first operand, then what follows that operand. */
  lemma SumStep(ts: seq<Token>, a: int, b: int)
    requires 0 <= a <= b < |ts|
    ensures var r := ParseRest(ts, OperandEnd(ts, a) + 1, b);
      ParseSum(ts, a, b) == Sum(Product(ParseFactor(ts, a), r.0), r.1)
  {
  }

  /** A sum prints as its first factor and what follows it, and is well formed when both parts are. */
  lemma SumPrintsBack(f: Factor, c: Chain, t: Tail)
    ensures SumOk(Sum(Product(f, c), t)) == (FactorOk(f) && ChainOk(c) && TailOk(t))
    ensures PrintSum(Sum(Product(f, c), t)) == PrintFactor(f) + (PrintChain(c) + PrintTail(t))
  {
  }

  lemma SliceSplit(ts: seq<Token>, a: int, e: int, b: int)
    requires 0 <= a <= e <= b < |ts|
    ensures ts[a..b + 1] == ts[a..e + 1] + ts[e + 1..b + 1]
    ensures ts[a..a + 1] == [ts[a]]
  {
  }

  lemma SliceParen(ts: seq<Token>, p: int, q: int)
    requires 0 <= p < q < |ts|
    ensures ts[p..q + 1] == [ts[p]] + ts[p + 1..q] + [ts[q]]
  {
  }

  /** How `ParseRest` reads a `*` or `/`. */
  lemma MultiplicativeStep(ts: seq<Token>, p: int, b: int)
    requires 0 < p < b < |ts| && ts[p].Operator? && IsMulOp(ts[p].op)
    ensures var r := ParseRest(ts, OperandEnd(ts, p + 1) + 1, b);
      ParseRest(ts, p, b) == (Step(ts[p].op, ParseFactor(ts, p + 1), r.0), r.1)
  {
  }

  /* ---- Printing inverts parsing ---- */

  lemma {:induction false} FactorRoundTrip(ts: seq<Token>, k: int, f: Factor)
    requires At(ts, k, PrintFactor(f)) && FactorOk(f)
    ensures ParseFactor(ts, k) == f
    decreases |PrintFactor(f)|, 0
  {
    AtIndex(ts, k, PrintFactor(f), 0);
    if f.Paren? {
      var w := PrintSum(f.inner);
      var last := k + |PrintFactor(f)| - 1;
      FactorEnd(ts, k, last, f);
      assert PrintFactor(f) == [OpenParen] + (w + [CloseParen]);
      AtSplit(ts, k, [OpenParen], w + [CloseParen]);
      AtSplit(ts, k + 1, w, [CloseParen]);
      SumRoundTrip(ts, k + 1, last - 1, f.inner);
    }
  }

  lemma {:induction false} SumRoundTrip(ts: seq<Token>, k: int, end: int, s: Sum)
    requires At(ts, k, PrintSum(s)) && SumOk(s) && end == k + |PrintSum(s)| - 1
    ensures ParseSum(ts, k, end) == s
    decreases |PrintSum(s)|, 1
  {
    var fw := PrintFactor(s.head.first);
    var rest := PrintChain(s.head.chain) + PrintTail(s.tail);
    var q := k + |fw| - 1;
    assert |fw| >= 1 && At(ts, k, fw) && At(ts, q + 1, rest) && end == q + |rest| by {
      SumPrintsBack(s.head.first, s.head.chain, s.tail);
      AtSplit(ts, k, fw, rest);
    }
    assert 0 <= k <= q <= end < |ts| && OperandEnd(ts, k) == q && ParseFactor(ts, k) == s.head.first by {
      AtIndex(ts, k, fw, 0);
      FactorEnd(ts, k, q, s.head.first);
      FactorRoundTrip(ts, k, s.head.first);
    }
    assert ParseRest(ts, q + 1, end) == (s.head.chain, s.tail) by {
      RestRoundTrip(ts, q + 1, end, s.head.chain, s.tail);
    }
    SumStep(ts, k, end);
  }

  lemma {:induction false} RestRoundTrip(ts: seq<Token>, pos: int, end: int, c: Chain, t: Tail)
    requires 0 < pos && At(ts, pos, PrintChain(c) + PrintTail(t)) && ChainOk(c) && TailOk(t)
    requires end == pos + |PrintChain(c) + PrintTail(t)| - 1
    ensures ParseRest(ts, pos, end) == (c, t)
    decreases |PrintChain(c) + PrintTail(t)|, 2
  {
    match c
    case Done =>
      assert PrintChain(c) + PrintTail(t) == PrintTail(t);
      TailRoundTrip(ts, pos, end, t);
    case Step(op, f, next) =>
      var fw := PrintFactor(f);
      var rest := PrintChain(next) + PrintTail(t);
      var w := PrintChain(c) + PrintTail(t);
      StepPrintsBack(op, f, next, t);
      AtIndex(ts, pos, w, 0);
      AtSplit(ts, pos, [Operator(op)], fw + rest);
      AtSplit(ts, pos + 1, fw, rest);
      StepRoundTrip(ts, pos, end, op, f, next, t);
  }

  lemma {:induction false} TailRoundTrip(ts: seq<Token>, pos: int, end: int, t: Tail)
    requires 0 < pos && At(ts, pos, PrintTail(t)) && TailOk(t) && end == pos + |PrintTail(t)| - 1
    ensures ParseRest(ts, pos, end) == (Done, t)
    decreases |PrintTail(t)|, 1
  {
    if !t.Stop? {
      var op := if t.Plus? then Addition else Subtraction;
      assert PrintTail(t) == [Operator(op)] + PrintSum(t.rest);
      assert |PrintSum(t.rest)| >= 1 by { assert |PrintFactor(t.rest.head.first)| >= 1; }
      AtIndex(ts, pos, PrintTail(t), 0);
      AtSplit(ts, pos, [Operator(op)], PrintSum(t.rest));
      SumRoundTrip(ts, pos + 1, end, t.rest);
    }
  }

  lemma {:induction false} StepRoundTrip(ts: seq<Token>, pos: int, end: int, op: OpFunction, f: Factor, next: Chain, t: Tail)
    requires 0 < pos < |ts| && ts[pos] == Operator(op) && IsMulOp(op)
    requires At(ts, pos + 1, PrintFactor(f)) && At(ts, pos + 1 + |PrintFactor(f)|, PrintChain(next) + PrintTail(t))
    requires FactorOk(f) && ChainOk(next) && TailOk(t)
    requires end == pos + |PrintFactor(f)| + |PrintChain(next) + PrintTail(t)|
    ensures ParseRest(ts, pos, end) == (Step(op, f, next), t)
    decreases |PrintFactor(f)| + |PrintChain(next) + PrintTail(t)| + 1, 1
  {
    var q := pos + |PrintFactor(f)|;
    assert |PrintFactor(f)| >= 1;
    FactorEnd(ts, pos + 1, q, f);
    FactorRoundTrip(ts, pos + 1, f);
    MultiplicativeStep(ts, pos, end);
    RestRoundTrip(ts, q + 1, end, next, t);
  }

  /** Parsing the tokens of a tree gives the tree back: `Parse` and `PrintSum` are inverse. */
  lemma ParseOfPrint(s: Sum)
    requires SumOk(s)
    ensures Parse(PrintSum(s)) == s
  {
    assert PrintSum(s)[0..|PrintSum(s)|] == PrintSum(s);
    SumRoundTrip(PrintSum(s), 0, |PrintSum(s)| - 1, s);
  }

  /** Every well-shaped, well-nested token list is the print of the tree parsed from it. */
  lemma ParsePrints(ts: seq<Token>)
    requires WellShaped(ts) && WellNested(ts)
    ensures SumOk(Parse(ts)) && PrintSum(Parse(ts)) == ts
  {
    SumParses(ts, 0, |ts| - 1);
    assert ts[0..|ts|] == ts;
  }

  /**
   * On every token list the lexer accepts and that nests properly, the
   * evaluator gives the meaning of the parsed tree (with `+` and `-`
   * grouped to the right), and the corrected evaluator gives its
   * conventional, left-to-right meaning.
   */
  lemma ResolveMeansParsed(ts: seq<Token>)
    requires WellShaped(ts) && WellNested(ts)
    ensures Resolve(ts, 0, |ts| - 1) == Ok(EvalSum(Parse(ts)))
    ensures IntendedResolve(ts, 0, |ts| - 1) == Ok(ConvSum(Parse(ts)))
  {
    ParsePrints(ts);
    EvaluatesPrinted(Parse(ts));
    IntendedMeansPrinted(Parse(ts));
  }

  /** The same for every expression the lexer accepts whose parentheses nest. */
  lemma LexedMeaning(e: string)
    requires Lex(e).status == Tokenized && WellNested(Lex(e).tokens)
    ensures PrintSum(Parse(Lex(e).tokens)) == Lex(e).tokens
    ensures Resolve(Lex(e).tokens, 0, |Lex(e).tokens| - 1) == Ok(EvalSum(Parse(Lex(e).tokens)))
    ensures IntendedResolve(Lex(e).tokens, 0, |Lex(e).tokens| - 1) == Ok(ConvSum(Parse(Lex(e).tokens)))
  {
    LexWellShaped(e);
    ParsePrints(Lex(e).tokens);
    ResolveMeansParsed(Lex(e).tokens);
  }
}
