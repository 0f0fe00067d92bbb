/**
 * The lexical patterns of the parser, written as hand-made matchers.
 *
 * Each `IsXLexeme` predicate is the language of one regular expression of the
 * pattern table; each `MatchX` function is that expression searched with
 * `match_continuous`, so it only ever matches at the front of the string and
 * returns the length of the match.  The `.*c.*` whole-string tests appear here
 * as "the lexeme contains c".
 */
module Patterns {
  import opened Wrappers

  /** `\s`: the classic-locale white-space characters. */
  predicate IsSpace(c: char) {
    c == ' ' || c == '\t' || c == '\n' || c == '\U{0B}' || c == '\U{0C}' || c == '\r'
  }

  predicate IsDigit(c: char) {
    '0' <= c <= '9'
  }

  predicate IsSign(c: char) {
    c == '-' || c == '+'
  }

  predicate IsOperatorChar(c: char) {
    c == '-' || c == '+' || c == '*' || c == '/'
  }

  predicate AllSpace(w: string) {
    forall i | 0 <= i < |w| :: IsSpace(w[i])
  }

  /** `\d+` */
  predicate IsDigits(w: string) {
    |w| > 0 && forall i | 0 <= i < |w| :: IsDigit(w[i])
  }

  /** What a greedy `\s*` consumes at the front of `s`. */
  function LeadingSpace(s: string): (n: nat)
    ensures n <= |s| && forall i | 0 <= i < n :: IsSpace(s[i])
    ensures n < |s| ==> !IsSpace(s[n])
  {
    if |s| > 0 && IsSpace(s[0]) then
      var m := LeadingSpace(s[1..]);
      assert forall i | 1 <= i < m + 1 :: s[i] == s[1..][i - 1];
      1 + m
    else 0
  }

  /** The white-space prefix is the one that is followed by a non-space or the end. */
  lemma LeadingSpaceIs(s: string, k: nat)
    requires k <= |s| && (forall i | 0 <= i < k :: IsSpace(s[i]))
    requires k < |s| ==> !IsSpace(s[k])
    ensures LeadingSpace(s) == k
  {
  }

  /** What a greedy `\d*` consumes from position `j` of `s`. */
  function DigitRun(s: string, j: nat): (d: nat)
    requires j <= |s|
    ensures j + d <= |s|
    ensures forall i | j <= i < j + d :: IsDigit(s[i])
    ensures j + d < |s| ==> !IsDigit(s[j + d])
    decreases |s| - j
  {
    if j < |s| && IsDigit(s[j]) then 1 + DigitRun(s, j + 1) else 0
  }

  /** The digit run is the one that is followed by a non-digit or the end. */
  lemma {:induction false} DigitRunIs(s: string, j: nat, d: nat)
    requires j + d <= |s| && (forall i | j <= i < j + d :: IsDigit(s[i]))
    requires j + d < |s| ==> !IsDigit(s[j + d])
    ensures DigitRun(s, j) == d
    decreases d
  {
    if d > 0 {
      DigitRunIs(s, j + 1, d - 1);
    }
  }

  /* ---- The languages of the patterns ---- */

  /** `w[a..b]` is `\d+`. */
  predicate IsDigitsIn(w: string, a: int, b: int) {
    0 <= a < b <= |w| && forall i | a <= i < b :: IsDigit(w[i])
  }

  /** `w[a..b]` is `\d+(\.\d+)?`. */
  predicate IsNumberIn(w: string, a: int, b: int) {
    IsDigitsIn(w, a, b) || exists k | 0 <= a < k < b <= |w| :: w[k] == '.' && IsDigitsIn(w, a, k) && IsDigitsIn(w, k + 1, b)
  }

  /** `w[a..b]` is `[-+]?\d+(\.\d+)?`. */
  predicate IsSignedNumberIn(w: string, a: int, b: int) {
    0 <= a < b <= |w| && if IsSign(w[a]) then IsNumberIn(w, a + 1, b) else IsNumberIn(w, a, b)
  }

  /** The `value` pattern `\s*[-+]?\d+(\.\d+)?`. */
  predicate IsValueLexeme(w: string) {
    IsSignedNumberIn(w, LeadingSpace(w), |w|)
  }

  /** The `open_paren` pattern `\s*[-+]?\(`. */
  predicate IsOpenParenLexeme(w: string) {
    var v := w[LeadingSpace(w)..];
    v == "(" || (|v| == 2 && IsSign(v[0]) && v[1] == '(')
  }

  /** The `close_paren` pattern `\s*\)`. */
  predicate IsCloseParenLexeme(w: string) {
    w[LeadingSpace(w)..] == ")"
  }

  /** The `operator` pattern: `\s*` then one of the four operator characters. */
  predicate IsOperatorLexeme(w: string) {
    var v := w[LeadingSpace(w)..];
    |v| == 1 && IsOperatorChar(v[0])
  }

  /* ---- Anchored matchers ---- */

  function MatchOpenParen(s: string): (r: Option<nat>)
    ensures r.Some? ==> 0 < r.value <= |s|
  {
    var i := LeadingSpace(s);
    if i < |s| && s[i] == '(' then Some(i + 1)
    else if i + 1 < |s| && IsSign(s[i]) && s[i + 1] == '(' then Some(i + 2)
    else None
  }

  function MatchCloseParen(s: string): (r: Option<nat>)
    ensures r.Some? ==> 0 < r.value <= |s|
  {
    var i := LeadingSpace(s);
    if i < |s| && s[i] == ')' then Some(i + 1) else None
  }

  function MatchOperator(s: string): (r: Option<nat>)
    ensures r.Some? ==> 0 < r.value <= |s|
  {
    var i := LeadingSpace(s);
    if i < |s| && IsOperatorChar(s[i]) then Some(i + 1) else None
  }

  /** Greedy and backtracking alike give the longest match here: `\d+` stops at the first non-digit. */
  function MatchValue(s: string): (r: Option<nat>)
    ensures r.Some? ==> 0 < r.value <= |s|
  {
    SignedNumberEnd(s, LeadingSpace(s))
  }

  /** Where `[-+]?\d+(\.\d+)?` matched from position `i` of `s` ends, if it matches. */
  function SignedNumberEnd(s: string, i: nat): (r: Option<nat>)
    requires i <= |s|
    ensures r.Some? ==> i < r.value <= |s|
  {
    NumberEnd(s, if i < |s| && IsSign(s[i]) then i + 1 else i)
  }

  /** Where `\d+(\.\d+)?` matched from position `j` of `s` ends, if it matches. */
  function NumberEnd(s: string, j: nat): (r: Option<nat>)
    requires j <= |s|
    ensures r.Some? ==> j < r.value <= |s|
  {
    var d := DigitRun(s, j);
    if d == 0 then None
    else
      var k := j + d;
      if k < |s| && s[k] == '.' && DigitRun(s, k + 1) > 0 then Some(k + 1 + DigitRun(s, k + 1))
      else Some(k)
  }

  /** The `whitespace` pattern `\s*` matched against the whole string. */
  function MatchWhitespace(s: string): (r: bool)
    ensures r <==> AllSpace(s)
  {
    if |s| == 0 then true
    else
      var r := IsSpace(s[0]) && MatchWhitespace(s[1..]);
      assert forall i | 1 <= i < |s| :: s[i] == s[1..][i - 1];
      r
  }

  /* ---- Matchers against their languages ---- */

  lemma {:induction false} LeadingSpaceOfPrefix(s: string, n: nat)
    requires n <= |s|
    ensures LeadingSpace(s[..n]) == if n < LeadingSpace(s) then n else LeadingSpace(s)
  {
    if n > 0 && IsSpace(s[0]) {
      assert s[..n][1..] == s[1..][..n - 1];
      LeadingSpaceOfPrefix(s[1..], n - 1);
    }
  }

  /** Where the lexeme `s[..n]` starts once its leading white space is skipped. */
  lemma StrippedPrefix(s: string, n: nat)
    requires LeadingSpace(s) < n <= |s|
    ensures s[..n][LeadingSpace(s[..n])..] == s[LeadingSpace(s)..n]
  {
    LeadingSpaceOfPrefix(s, n);
  }

  /** A prefix that ends inside the leading white space is no lexeme of any kind. */
  lemma ShortPrefix(s: string, n: nat)
    requires n <= LeadingSpace(s) && n <= |s|
    ensures s[..n][LeadingSpace(s[..n])..] == []
  {
    LeadingSpaceOfPrefix(s, n);
  }

  /** The open-paren matcher finds exactly the one prefix of `s` that is an open-paren lexeme, if there is one. */
  lemma MatchOpenParenSpec(s: string)
    ensures forall n | 0 <= n <= |s| :: IsOpenParenLexeme(s[..n]) <==> MatchOpenParen(s) == Some(n)
  {
    forall n | 0 <= n <= |s|
      ensures IsOpenParenLexeme(s[..n]) <==> MatchOpenParen(s) == Some(n)
    {
      if n <= LeadingSpace(s) { ShortPrefix(s, n); } else { StrippedPrefix(s, n); }
    }
  }

  /** The close-paren matcher finds exactly the one prefix of `s` that is a close-paren lexeme, if there is one. */
  lemma MatchCloseParenSpec(s: string)
    ensures forall n | 0 <= n <= |s| :: IsCloseParenLexeme(s[..n]) <==> MatchCloseParen(s) == Some(n)
  {
    forall n | 0 <= n <= |s|
      ensures IsCloseParenLexeme(s[..n]) <==> MatchCloseParen(s) == Some(n)
    {
      if n <= LeadingSpace(s) { ShortPrefix(s, n); } else { StrippedPrefix(s, n); }
    }
  }

  /** The operator matcher finds exactly the one prefix of `s` that is an operator lexeme, if there is one. */
  lemma MatchOperatorSpec(s: string)
    ensures forall n | 0 <= n <= |s| :: IsOperatorLexeme(s[..n]) <==> MatchOperator(s) == Some(n)
  {
    forall n | 0 <= n <= |s|
      ensures IsOperatorLexeme(s[..n]) <==> MatchOperator(s) == Some(n)
    {
      if n <= LeadingSpace(s) { ShortPrefix(s, n); } else { StrippedPrefix(s, n); }
    }
  }
  /** A number starting at `j` lies within the digit run at `j` and, after a `.`, the digit run that follows it. */
  lemma NumberWithinRun(s: string, j: nat, n: nat)
    requires IsNumberIn(s, j, n)
    ensures DigitRun(s, j) > 0
    ensures var k := j + DigitRun(s, j);
      n <= k || (k < |s| && s[k] == '.' && DigitRun(s, k + 1) > 0 && n <= k + 1 + DigitRun(s, k + 1))
  {
    var d := DigitRun(s, j);
    if !IsDigitsIn(s, j, n) {
      var k :| j < k < n && s[k] == '.' && IsDigitsIn(s, j, k) && IsDigitsIn(s, k + 1, n);
      assert d == k - j;
    }
  }

  /** What the value matcher takes after the sign is a number. */
  lemma NumberOfRun(s: string, j: nat)
    requires j <= |s| && DigitRun(s, j) > 0
    ensures IsNumberIn(s, j, j + DigitRun(s, j))
    ensures var k := j + DigitRun(s, j);
      k < |s| && s[k] == '.' && DigitRun(s, k + 1) > 0 ==> IsNumberIn(s, j, k + 1 + DigitRun(s, k + 1))
  {
    var k := j + DigitRun(s, j);
    assert IsDigitsIn(s, j, k);
    if k < |s| && s[k] == '.' && DigitRun(s, k + 1) > 0 {
      assert IsDigitsIn(s, k + 1, k + 1 + DigitRun(s, k + 1));
    }
  }

  /** Whether `s[..n][a..b]` is a number depends only on `s[a..b]`. */
  lemma NumberInPrefix(s: string, n: nat, a: int, b: int)
    requires b <= n <= |s|
    ensures IsSignedNumberIn(s[..n], a, b) <==> IsSignedNumberIn(s, a, b)
  {
    assert forall i | 0 <= i < n :: s[..n][i] == s[i];
    assert forall c, e | 0 <= c && e <= b :: IsDigitsIn(s[..n], c, e) == IsDigitsIn(s, c, e);
  }

  /** The value matcher returns a value lexeme. */
  lemma MatchValueSound(s: string)
    ensures MatchValue(s).Some? ==> IsValueLexeme(s[..MatchValue(s).value])
  {
    var i := LeadingSpace(s);
    if MatchValue(s).Some? {
      var m := MatchValue(s).value;
      SignedNumberEndSound(s, i);
      LeadingSpaceOfPrefix(s, m);
      assert LeadingSpace(s[..m]) == i;
      NumberInPrefix(s, m, i, m);
    }
  }

  /** What the signed-number matcher takes is a signed number. */
  lemma SignedNumberEndSound(s: string, i: nat)
    requires i <= |s|
    ensures SignedNumberEnd(s, i).Some? ==> IsSignedNumberIn(s, i, SignedNumberEnd(s, i).value)
  {
    NumberEndSound(s, if i < |s| && IsSign(s[i]) then i + 1 else i);
  }

  /** What the number matcher takes is a number. */
  lemma NumberEndSound(s: string, j: nat)
    requires j <= |s|
    ensures NumberEnd(s, j).Some? ==> IsNumberIn(s, j, NumberEnd(s, j).value)
  {
    if NumberEnd(s, j).Some? {
      NumberOfRun(s, j);
    }
  }

  /** The value matcher returns the longest value lexeme at the front of `s`, and fails only when there is none. */
  lemma MatchValueLongest(s: string)
    ensures forall n | 0 <= n <= |s| && IsValueLexeme(s[..n]) :: MatchValue(s).Some? && n <= MatchValue(s).value
  {
    forall n | 0 <= n <= |s| && IsValueLexeme(s[..n])
      ensures MatchValue(s).Some? && n <= MatchValue(s).value
    {
      MatchValueCovers(s, n);
    }
  }

  /** A value lexeme of length `n` at the front of `s` is covered by the match. */
  lemma MatchValueCovers(s: string, n: nat)
    requires n <= |s| && IsValueLexeme(s[..n])
    ensures MatchValue(s).Some? && n <= MatchValue(s).value
  {
    var i := LeadingSpace(s);
    LeadingSpaceOfPrefix(s, n);
    assert LeadingSpace(s[..n]) == i;
    NumberInPrefix(s, n, i, n);
    assert IsSignedNumberIn(s, i, n);
    var j := if i < |s| && IsSign(s[i]) then i + 1 else i;
    assert IsNumberIn(s, j, n);
    NumberWithinRun(s, j, n);
    NumberEndReaches(s, j, n);
  }

  /** The match reaches every end a number starting at `j` can have. */
  lemma NumberEndReaches(s: string, j: nat, n: nat)
    requires j <= |s| && DigitRun(s, j) > 0
    requires var k := j + DigitRun(s, j);
      n <= k || (k < |s| && s[k] == '.' && DigitRun(s, k + 1) > 0 && n <= k + 1 + DigitRun(s, k + 1))
    ensures NumberEnd(s, j).Some? && n <= NumberEnd(s, j).value
  {
  }

  /* ---- The number a value lexeme denotes ---- */

  function DigitValue(c: char): nat {
    if IsDigit(c) then c as int - '0' as int else 0
  }

  function DigitsValue(ds: string): nat {
    if |ds| == 0 then 0 else 10 * DigitsValue(ds[..|ds| - 1]) + DigitValue(ds[|ds| - 1])
  }

  function Pow10(n: nat): nat {
    if n == 0 then 1 else 10 * Pow10(n - 1)
  }

  lemma {:induction false} Pow10Positive(n: nat)
    ensures Pow10(n) > 0
  {
    if n > 0 {
      Pow10Positive(n - 1);
    }
  }

  /** The exact value of `\d+(\.\d+)?`. */
  function NumberValue(v: string): real {
    var k := DigitRun(v, 0);
    if k < |v| then
      Pow10Positive(|v| - k - 1);
      DigitsValue(v[..k]) as real + DigitsValue(v[k + 1..]) as real / Pow10(|v| - k - 1) as real
    else DigitsValue(v) as real
  }

  /** `std::stod` applied to a value lexeme, kept exact (no rounding to the nearest double). */
  function LexemeValue(w: string): real {
    var v := w[LeadingSpace(w)..];
    if |v| > 0 && v[0] == '-' then -NumberValue(v[1..])
    else if |v| > 0 && v[0] == '+' then NumberValue(v[1..])
    else NumberValue(v)
  }
}
