/**
 * Expressions from the program's own test suite, lexed and evaluated by
 * the model.  Each lexing lemma takes the remaining input as a parameter
 * equal to a literal and follows the state machine one lexeme at a time,
 * from the state named by the lemma's function and balance.
 */
module Examples {
  import opened Wrappers
  import opened Doubles
  import opened Tokens
  import opened Patterns
  import opened Lexer
  import opened Evaluator
  import opened Syntax
  import opened ArithmeticParser

  /* ---- Values with a fractional part ---- */

  lemma FourPointOne(w: string)
    requires w == " 4.1"
    ensures LexemeValue(w) == 4.1
  {
    assert LeadingSpace("4.1") == 0;
    assert LeadingSpace(" 4.1") == 1 by { assert " 4.1"[1..] == "4.1"; }
    assert w[1..] == "4.1";
    assert DigitRun("4.1", 0) == 1 by { assert DigitRun("4.1", 1) == 0; }
    assert "4.1"[..1] == "4" && "4.1"[2..] == "1";
    assert DigitsValue("4") == 4 by { assert "4"[..0] == ""; }
    assert DigitsValue("1") == 1 by { assert "1"[..0] == ""; }
  }

  lemma TwoPointZero(w: string)
    requires w == "2.0"
    ensures LexemeValue(w) == 2.0
  {
    assert LeadingSpace("2.0") == 0;
    assert w[0..] == "2.0";
    assert DigitRun("2.0", 0) == 1 by { assert DigitRun("2.0", 1) == 0; }
    assert "2.0"[..1] == "2" && "2.0"[2..] == "0";
    assert DigitsValue("2") == 2 by { assert "2"[..0] == ""; }
    assert DigitsValue("0") == 0 by { assert "0"[..0] == ""; }
  }

  lemma SevenPointEight(w: string)
    requires w == "7.8"
    ensures LexemeValue(w) == 7.8
  {
    assert LeadingSpace("7.8") == 0;
    assert w[0..] == "7.8";
    assert DigitRun("7.8", 0) == 1 by { assert DigitRun("7.8", 1) == 0; }
    assert "7.8"[..1] == "7" && "7.8"[2..] == "8";
    assert DigitsValue("7") == 7 by { assert "7"[..0] == ""; }
    assert DigitsValue("8") == 8 by { assert "8"[..0] == ""; }
  }

  /* ---- Inputs rejected before any lexeme ---- */

  lemma LexLoneSign(s: string)
    requires s == "+"
    ensures Lex(s) == Lexed([], MissingValue)
  {
    assert MatchOpenParen("+") == None && MatchValue("+") == None;
  }

  lemma LexLoneClose(s: string)
    requires s == ")"
    ensures Lex(s) == Lexed([], MissingValue)
  {
    assert MatchOpenParen(")") == None && MatchValue(")") == None;
  }

  /* ---- `5` ---- */

  lemma LexFiveLexemes(s: string)
    requires s == "5"
    ensures Lex(s) == Lexed([Value(5.0)], Tokenized)
  {
    LeadingSpaceIs(s, 0);
    DigitRunIs(s, 0, 1);
    assert MatchOpenParen(s) == None && MatchValue(s) == Some(1);
    assert s[..1] == "5";
    assert LexemeValue("5") == 5.0;
    var rest := s[1..];
    LeadingSpaceIs(rest, 0);
    assert MatchCloseParen(rest) == None && MatchOperator(rest) == None;
    assert LexAfterValue(rest, 0) == Lexed([], Tokenized);
    assert LexOperand(s, 0) == Prepend([Value(5.0)], LexAfterValue(rest, 0));
  }
  lemma LexFive(s: string)
    requires s == "5"
    ensures Lex(s) == Lexed([Value(5.0)], Tokenized)
  {
    assert s == "5";
    LexFiveLexemes(s);
  }

  /* ---- `2 * -3` ---- */

  lemma LexTwoTimesNegThreeLexemesFrom2(s: string)
    requires s == " -3"
    ensures LexOperand(s, 0) == Lexed([Value(-3.0)], Tokenized)
  {
    LeadingSpaceIs(s, 1);
    DigitRunIs(s, 2, 1);
    assert MatchOpenParen(s) == None && MatchValue(s) == Some(3);
    assert s[..3] == " -3";
    assert LexemeValue(" -3") == -3.0;
    var rest := s[3..];
    LeadingSpaceIs(rest, 0);
    assert MatchCloseParen(rest) == None && MatchOperator(rest) == None;
    assert LexAfterValue(rest, 0) == Lexed([], Tokenized);
    assert LexOperand(s, 0) == Prepend([Value(-3.0)], LexAfterValue(rest, 0));
  }

  lemma LexTwoTimesNegThreeLexemesFrom1(s: string)
    requires s == " *" + " -3"
    ensures LexAfterValue(s, 0) == Lexed([Operator(Multiplication)] + [Value(-3.0)], Tokenized)
  {
    LeadingSpaceIs(s, 1);
    assert MatchCloseParen(s) == None && MatchOperator(s) == Some(2);
    assert s[..2] == " *";
    assert OpTokenFromString(" *") == Some(Multiplication);
    LexTwoTimesNegThreeLexemesFrom2(s[2..]);
    var next := LexOperand(s[2..], 0);
    assert LexAfterValue(s, 0) == Prepend([Operator(Multiplication)], next);
  }

  lemma LexTwoTimesNegThreeLexemes(s: string)
    requires s == "2" + (" *" + " -3")
    ensures Lex(s) == Lexed([Value(2.0)] + ([Operator(Multiplication)] + [Value(-3.0)]), Tokenized)
  {
    LeadingSpaceIs(s, 0);
    DigitRunIs(s, 0, 1);
    assert MatchOpenParen(s) == None && MatchValue(s) == Some(1);
    assert s[..1] == "2";
    assert LexemeValue("2") == 2.0;
    LexTwoTimesNegThreeLexemesFrom1(s[1..]);
    var next := LexAfterValue(s[1..], 0);
    assert LexOperand(s, 0) == Prepend([Value(2.0)], next);
  }
  lemma LexTwoTimesNegThree(s: string)
    requires s == "2 * -3"
    ensures Lex(s) == Lexed([Value(2.0), Operator(Multiplication), Value(-3.0)], Tokenized)
  {
    assert s == "2" + (" *" + " -3");
    LexTwoTimesNegThreeLexemes(s);
  }

  /* ---- `-(-2 + 4.1) * 6 + (2.0 / +(-3 - 2))` ---- */

  lemma LexFeaturedLexemesFrom16(s: string)
    requires s == ")"
    ensures LexAfterValue(s, 1) == Lexed([CloseParen], Tokenized)
  {
    LeadingSpaceIs(s, 0);
    assert MatchCloseParen(s) == Some(1);
    assert s[..1] == ")";
    var rest := s[1..];
    LeadingSpaceIs(rest, 0);
    assert MatchCloseParen(rest) == None && MatchOperator(rest) == None;
    assert LexAfterValue(rest, 0) == Lexed([], Tokenized);
    assert LexAfterValue(s, 1) == Prepend([CloseParen], LexAfterValue(rest, 0));
  }

  lemma LexFeaturedLexemesFrom15(s: string)
    requires s == ")" + ")"
    ensures LexAfterValue(s, 2) == Lexed([CloseParen] + [CloseParen], Tokenized)
  {
    LeadingSpaceIs(s, 0);
    assert MatchCloseParen(s) == Some(1);
    assert s[..1] == ")";
    LexFeaturedLexemesFrom16(s[1..]);
    var next := LexAfterValue(s[1..], 1);
    assert LexAfterValue(s, 2) == Prepend([CloseParen], next);
  }

  lemma LexFeaturedLexemesFrom14(s: string)
    requires s == " 2" + (")" + ")")
    ensures LexOperand(s, 2) == Lexed([Value(2.0)] + ([CloseParen] + [CloseParen]), Tokenized)
  {
    LeadingSpaceIs(s, 1);
    DigitRunIs(s, 1, 1);
    assert MatchOpenParen(s) == None && MatchValue(s) == Some(2);
    assert s[..2] == " 2";
    assert LexemeValue(" 2") == 2.0;
    LexFeaturedLexemesFrom15(s[2..]);
    var next := LexAfterValue(s[2..], 2);
    assert LexOperand(s, 2) == Prepend([Value(2.0)], next);
  }

  lemma LexFeaturedLexemesFrom13(s: string)
    requires s == " -" + (" 2" + (")" + ")"))
    ensures LexAfterValue(s, 2) == Lexed([Operator(Subtraction)] + ([Value(2.0)] + ([CloseParen] + [CloseParen])), Tokenized)
  {
    LeadingSpaceIs(s, 1);
    assert MatchCloseParen(s) == None && MatchOperator(s) == Some(2);
    assert s[..2] == " -";
    assert OpTokenFromString(" -") == Some(Subtraction);
    LexFeaturedLexemesFrom14(s[2..]);
    var next := LexOperand(s[2..], 2);
    assert LexAfterValue(s, 2) == Prepend([Operator(Subtraction)], next);
  }

  lemma LexFeaturedLexemesFrom12(s: string)
    requires s == "-3" + (" -" + (" 2" + (")" + ")")))
    ensures LexOperand(s, 2) == Lexed([Value(-3.0)] + ([Operator(Subtraction)] + ([Value(2.0)] + ([CloseParen] + [CloseParen]))), Tokenized)
  {
    LeadingSpaceIs(s, 0);
    DigitRunIs(s, 1, 1);
    assert MatchOpenParen(s) == None && MatchValue(s) == Some(2);
    assert s[..2] == "-3";
    assert LexemeValue("-3") == -3.0;
    LexFeaturedLexemesFrom13(s[2..]);
    var next := LexAfterValue(s[2..], 2);
    assert LexOperand(s, 2) == Prepend([Value(-3.0)], next);
  }

  lemma LexFeaturedLexemesFrom11(s: string)
    requires s == " +(" + ("-3" + (" -" + (" 2" + (")" + ")"))))
    ensures LexOperand(s, 1) == Lexed([OpenParen] + ([Value(-3.0)] + ([Operator(Subtraction)] + ([Value(2.0)] + ([CloseParen] + [CloseParen])))), Tokenized)
  {
    LeadingSpaceIs(s, 1);
    assert MatchOpenParen(s) == Some(3);
    assert s[..3] == " +(";
    assert OpenParenTokens(" +(") == [OpenParen];
    LexFeaturedLexemesFrom12(s[3..]);
    var next := LexOperand(s[3..], 2);
    assert LexOperand(s, 1) == Prepend([OpenParen], next);
  }

  lemma LexFeaturedLexemesFrom10(s: string)
    requires s == " /" + (" +(" + ("-3" + (" -" + (" 2" + (")" + ")")))))
    ensures LexAfterValue(s, 1) == Lexed([Operator(Division)] + ([OpenParen] + ([Value(-3.0)] + ([Operator(Subtraction)] + ([Value(2.0)] + ([CloseParen] + [CloseParen]))))), Tokenized)
  {
    LeadingSpaceIs(s, 1);
    assert MatchCloseParen(s) == None && MatchOperator(s) == Some(2);
    assert s[..2] == " /";
    assert OpTokenFromString(" /") == Some(Division);
    LexFeaturedLexemesFrom11(s[2..]);
    var next := LexOperand(s[2..], 1);
    assert LexAfterValue(s, 1) == Prepend([Operator(Division)], next);
  }

  lemma LexFeaturedLexemesFrom9(s: string)
    requires s == "2.0" + (" /" + (" +(" + ("-3" + (" -" + (" 2" + (")" + ")"))))))
    ensures LexOperand(s, 1) == Lexed([Value(2.0)] + ([Operator(Division)] + ([OpenParen] + ([Value(-3.0)] + ([Operator(Subtraction)] + ([Value(2.0)] + ([CloseParen] + [CloseParen])))))), Tokenized)
  {
    LeadingSpaceIs(s, 0);
    DigitRunIs(s, 0, 1);
    DigitRunIs(s, 2, 1);
    assert MatchOpenParen(s) == None && MatchValue(s) == Some(3);
    assert s[..3] == "2.0";
    TwoPointZero(s[..3]);
    LexFeaturedLexemesFrom10(s[3..]);
    var next := LexAfterValue(s[3..], 1);
    assert LexOperand(s, 1) == Prepend([Value(2.0)], next);
  }

  lemma LexFeaturedLexemesFrom8(s: string)
    requires s == " (" + ("2.0" + (" /" + (" +(" + ("-3" + (" -" + (" 2" + (")" + ")")))))))
    ensures LexOperand(s, 0) == Lexed([OpenParen] + ([Value(2.0)] + ([Operator(Division)] + ([OpenParen] + ([Value(-3.0)] + ([Operator(Subtraction)] + ([Value(2.0)] + ([CloseParen] + [CloseParen]))))))), Tokenized)
  {
    LeadingSpaceIs(s, 1);
    assert MatchOpenParen(s) == Some(2);
    assert s[..2] == " (";
    assert OpenParenTokens(" (") == [OpenParen];
    LexFeaturedLexemesFrom9(s[2..]);
    var next := LexOperand(s[2..], 1);
    assert LexOperand(s, 0) == Prepend([OpenParen], next);
  }

  lemma LexFeaturedLexemesFrom7(s: string)
    requires s == " +" + (" (" + ("2.0" + (" /" + (" +(" + ("-3" + (" -" + (" 2" + (")" + ")"))))))))
    ensures LexAfterValue(s, 0) == Lexed([Operator(Addition)] + ([OpenParen] + ([Value(2.0)] + ([Operator(Division)] + ([OpenParen] + ([Value(-3.0)] + ([Operator(Subtraction)] + ([Value(2.0)] + ([CloseParen] + [CloseParen])))))))), Tokenized)
  {
    LeadingSpaceIs(s, 1);
    assert MatchCloseParen(s) == None && MatchOperator(s) == Some(2);
    assert s[..2] == " +";
    assert OpTokenFromString(" +") == Some(Addition);
    LexFeaturedLexemesFrom8(s[2..]);
    var next := LexOperand(s[2..], 0);
    assert LexAfterValue(s, 0) == Prepend([Operator(Addition)], next);
  }

  lemma LexFeaturedLexemesFrom6(s: string)
    requires s == " 6" + (" +" + (" (" + ("2.0" + (" /" + (" +(" + ("-3" + (" -" + (" 2" + (")" + ")")))))))))
    ensures LexOperand(s, 0) == Lexed([Value(6.0)] + ([Operator(Addition)] + ([OpenParen] + ([Value(2.0)] + ([Operator(Division)] + ([OpenParen] + ([Value(-3.0)] + ([Operator(Subtraction)] + ([Value(2.0)] + ([CloseParen] + [CloseParen]))))))))), Tokenized)
  {
    LeadingSpaceIs(s, 1);
    DigitRunIs(s, 1, 1);
    assert MatchOpenParen(s) == None && MatchValue(s) == Some(2);
    assert s[..2] == " 6";
    assert LexemeValue(" 6") == 6.0;
    LexFeaturedLexemesFrom7(s[2..]);
    var next := LexAfterValue(s[2..], 0);
    assert LexOperand(s, 0) == Prepend([Value(6.0)], next);
  }

  lemma LexFeaturedLexemesFrom5(s: string)
    requires s == " *" + (" 6" + (" +" + (" (" + ("2.0" + (" /" + (" +(" + ("-3" + (" -" + (" 2" + (")" + ")"))))))))))
    ensures LexAfterValue(s, 0) == Lexed([Operator(Multiplication)] + ([Value(6.0)] + ([Operator(Addition)] + ([OpenParen] + ([Value(2.0)] + ([Operator(Division)] + ([OpenParen] + ([Value(-3.0)] + ([Operator(Subtraction)] + ([Value(2.0)] + ([CloseParen] + [CloseParen])))))))))), Tokenized)
  {
    LeadingSpaceIs(s, 1);
    assert MatchCloseParen(s) == None && MatchOperator(s) == Some(2);
    assert s[..2] == " *";
    assert OpTokenFromString(" *") == Some(Multiplication);
    LexFeaturedLexemesFrom6(s[2..]);
    var next := LexOperand(s[2..], 0);
    assert LexAfterValue(s, 0) == Prepend([Operator(Multiplication)], next);
  }

  lemma LexFeaturedLexemesFrom4(s: string)
    requires s == ")" + (" *" + (" 6" + (" +" + (" (" + ("2.0" + (" /" + (" +(" + ("-3" + (" -" + (" 2" + (")" + ")")))))))))))
    ensures LexAfterValue(s, 1) == Lexed([CloseParen] + ([Operator(Multiplication)] + ([Value(6.0)] + ([Operator(Addition)] + ([OpenParen] + ([Value(2.0)] + ([Operator(Division)] + ([OpenParen] + ([Value(-3.0)] + ([Operator(Subtraction)] + ([Value(2.0)] + ([CloseParen] + [CloseParen]))))))))))), Tokenized)
  {
    LeadingSpaceIs(s, 0);
    assert MatchCloseParen(s) == Some(1);
    assert s[..1] == ")";
    LexFeaturedLexemesFrom5(s[1..]);
    var next := LexAfterValue(s[1..], 0);
    assert LexAfterValue(s, 1) == Prepend([CloseParen], next);
  }

  lemma LexFeaturedLexemesFrom3(s: string)
    requires s == " 4.1" + (")" + (" *" + (" 6" + (" +" + (" (" + ("2.0" + (" /" + (" +(" + ("-3" + (" -" + (" 2" + (")" + ")"))))))))))))
    ensures LexOperand(s, 1) == Lexed([Value(4.1)] + ([CloseParen] + ([Operator(Multiplication)] + ([Value(6.0)] + ([Operator(Addition)] + ([OpenParen] + ([Value(2.0)] + ([Operator(Division)] + ([OpenParen] + ([Value(-3.0)] + ([Operator(Subtraction)] + ([Value(2.0)] + ([CloseParen] + [CloseParen])))))))))))), Tokenized)
  {
    LeadingSpaceIs(s, 1);
    DigitRunIs(s, 1, 1);
    DigitRunIs(s, 3, 1);
    assert MatchOpenParen(s) == None && MatchValue(s) == Some(4);
    assert s[..4] == " 4.1";
    FourPointOne(s[..4]);
    LexFeaturedLexemesFrom4(s[4..]);
    var next := LexAfterValue(s[4..], 1);
    assert LexOperand(s, 1) == Prepend([Value(4.1)], next);
  }

  lemma LexFeaturedLexemesFrom2(s: string)
    requires s == " +" + (" 4.1" + (")" + (" *" + (" 6" + (" +" + (" (" + ("2.0" + (" /" + (" +(" + ("-3" + (" -" + (" 2" + (")" + ")")))))))))))))
    ensures LexAfterValue(s, 1) == Lexed([Operator(Addition)] + ([Value(4.1)] + ([CloseParen] + ([Operator(Multiplication)] + ([Value(6.0)] + ([Operator(Addition)] + ([OpenParen] + ([Value(2.0)] + ([Operator(Division)] + ([OpenParen] + ([Value(-3.0)] + ([Operator(Subtraction)] + ([Value(2.0)] + ([CloseParen] + [CloseParen]))))))))))))), Tokenized)
  {
    LeadingSpaceIs(s, 1);
    assert MatchCloseParen(s) == None && MatchOperator(s) == Some(2);
    assert s[..2] == " +";
    assert OpTokenFromString(" +") == Some(Addition);
    LexFeaturedLexemesFrom3(s[2..]);
    var next := LexOperand(s[2..], 1);
    assert LexAfterValue(s, 1) == Prepend([Operator(Addition)], next);
  }

  lemma LexFeaturedLexemesFrom1(s: string)
    requires s == "-2" + (" +" + (" 4.1" + (")" + (" *" + (" 6" + (" +" + (" (" + ("2.0" + (" /" + (" +(" + ("-3" + (" -" + (" 2" + (")" + ")"))))))))))))))
    ensures LexOperand(s, 1) == Lexed([Value(-2.0)] + ([Operator(Addition)] + ([Value(4.1)] + ([CloseParen] + ([Operator(Multiplication)] + ([Value(6.0)] + ([Operator(Addition)] + ([OpenParen] + ([Value(2.0)] + ([Operator(Division)] + ([OpenParen] + ([Value(-3.0)] + ([Operator(Subtraction)] + ([Value(2.0)] + ([CloseParen] + [CloseParen])))))))))))))), Tokenized)
  {
    LeadingSpaceIs(s, 0);
    DigitRunIs(s, 1, 1);
    assert MatchOpenParen(s) == None && MatchValue(s) == Some(2);
    assert s[..2] == "-2";
    assert LexemeValue("-2") == -2.0;
    LexFeaturedLexemesFrom2(s[2..]);
    var next := LexAfterValue(s[2..], 1);
    assert LexOperand(s, 1) == Prepend([Value(-2.0)], next);
  }

  lemma LexFeaturedLexemes(s: string)
    requires s == "-(" + ("-2" + (" +" + (" 4.1" + (")" + (" *" + (" 6" + (" +" + (" (" + ("2.0" + (" /" + (" +(" + ("-3" + (" -" + (" 2" + (")" + ")")))))))))))))))
    ensures Lex(s) == Lexed([Value(-1.0), Operator(Multiplication), OpenParen] + ([Value(-2.0)] + ([Operator(Addition)] + ([Value(4.1)] + ([CloseParen] + ([Operator(Multiplication)] + ([Value(6.0)] + ([Operator(Addition)] + ([OpenParen] + ([Value(2.0)] + ([Operator(Division)] + ([OpenParen] + ([Value(-3.0)] + ([Operator(Subtraction)] + ([Value(2.0)] + ([CloseParen] + [CloseParen]))))))))))))))), Tokenized)
  {
    LeadingSpaceIs(s, 0);
    assert MatchOpenParen(s) == Some(2);
    assert s[..2] == "-(";
    assert OpenParenTokens("-(") == [Value(-1.0), Operator(Multiplication), OpenParen];
    LexFeaturedLexemesFrom1(s[2..]);
    var next := LexOperand(s[2..], 1);
    assert LexOperand(s, 0) == Prepend([Value(-1.0), Operator(Multiplication), OpenParen], next);
  }
  lemma LexFeaturedByLexeme(s: string)
    requires s == "-(-2 + 4.1) * 6 + (2.0 / +(-3 - 2))"
    ensures s == "-(" + ("-2" + (" +" + (" 4.1" + (")" + (" *" + (" 6" + (" +" + (" (" + ("2.0" + (" /" + (" +(" + ("-3" + (" -" + (" 2" + (")" + ")")))))))))))))))
  {
  }

  lemma LexFeaturedTokens()
    ensures [Value(-1.0), Operator(Multiplication), OpenParen] + ([Value(-2.0)] + ([Operator(Addition)] + ([Value(4.1)] + ([CloseParen] + ([Operator(Multiplication)] + ([Value(6.0)] + ([Operator(Addition)] + ([OpenParen] + ([Value(2.0)] + ([Operator(Division)] + ([OpenParen] + ([Value(-3.0)] + ([Operator(Subtraction)] + ([Value(2.0)] + ([CloseParen] + [CloseParen]))))))))))))))) == [Value(-1.0), Operator(Multiplication), OpenParen, Value(-2.0), Operator(Addition), Value(4.1), CloseParen, Operator(Multiplication), Value(6.0), Operator(Addition), OpenParen, Value(2.0), Operator(Division), OpenParen, Value(-3.0), Operator(Subtraction), Value(2.0), CloseParen, CloseParen]
  {
  }

  lemma LexFeatured(s: string)
    requires s == "-(-2 + 4.1) * 6 + (2.0 / +(-3 - 2))"
    ensures Lex(s) == Lexed([Value(-1.0), Operator(Multiplication), OpenParen, Value(-2.0), Operator(Addition), Value(4.1), CloseParen, Operator(Multiplication), Value(6.0), Operator(Addition), OpenParen, Value(2.0), Operator(Division), OpenParen, Value(-3.0), Operator(Subtraction), Value(2.0), CloseParen, CloseParen], Tokenized)
  {
    LexFeaturedByLexeme(s);
    LexFeaturedLexemes(s);
    LexFeaturedTokens();
  }

  /* ---- `6 / 0` ---- */

  lemma LexSixOverZeroLexemesFrom2(s: string)
    requires s == " 0"
    ensures LexOperand(s, 0) == Lexed([Value(0.0)], Tokenized)
  {
    LeadingSpaceIs(s, 1);
    DigitRunIs(s, 1, 1);
    assert MatchOpenParen(s) == None && MatchValue(s) == Some(2);
    assert s[..2] == " 0";
    assert LexemeValue(" 0") == 0.0;
    var rest := s[2..];
    LeadingSpaceIs(rest, 0);
    assert MatchCloseParen(rest) == None && MatchOperator(rest) == None;
    assert LexAfterValue(rest, 0) == Lexed([], Tokenized);
    assert LexOperand(s, 0) == Prepend([Value(0.0)], LexAfterValue(rest, 0));
  }

  lemma LexSixOverZeroLexemesFrom1(s: string)
    requires s == " /" + " 0"
    ensures LexAfterValue(s, 0) == Lexed([Operator(Division)] + [Value(0.0)], Tokenized)
  {
    LeadingSpaceIs(s, 1);
    assert MatchCloseParen(s) == None && MatchOperator(s) == Some(2);
    assert s[..2] == " /";
    assert OpTokenFromString(" /") == Some(Division);
    LexSixOverZeroLexemesFrom2(s[2..]);
    var next := LexOperand(s[2..], 0);
    assert LexAfterValue(s, 0) == Prepend([Operator(Division)], next);
  }

  lemma LexSixOverZeroLexemes(s: string)
    requires s == "6" + (" /" + " 0")
    ensures Lex(s) == Lexed([Value(6.0)] + ([Operator(Division)] + [Value(0.0)]), Tokenized)
  {
    LeadingSpaceIs(s, 0);
    DigitRunIs(s, 0, 1);
    assert MatchOpenParen(s) == None && MatchValue(s) == Some(1);
    assert s[..1] == "6";
    assert LexemeValue("6") == 6.0;
    LexSixOverZeroLexemesFrom1(s[1..]);
    var next := LexAfterValue(s[1..], 0);
    assert LexOperand(s, 0) == Prepend([Value(6.0)], next);
  }
  lemma LexSixOverZero(s: string)
    requires s == "6 / 0"
    ensures Lex(s) == Lexed([Value(6.0), Operator(Division), Value(0.0)], Tokenized)
  {
    assert s == "6" + (" /" + " 0");
    LexSixOverZeroLexemes(s);
  }

  /* ---- `2 / -(4)` ---- */

  lemma LexNegatedParenLexemesFrom4(s: string)
    requires s == ")"
    ensures LexAfterValue(s, 1) == Lexed([CloseParen], Tokenized)
  {
    LeadingSpaceIs(s, 0);
    assert MatchCloseParen(s) == Some(1);
    assert s[..1] == ")";
    var rest := s[1..];
    LeadingSpaceIs(rest, 0);
    assert MatchCloseParen(rest) == None && MatchOperator(rest) == None;
    assert LexAfterValue(rest, 0) == Lexed([], Tokenized);
    assert LexAfterValue(s, 1) == Prepend([CloseParen], LexAfterValue(rest, 0));
  }

  lemma LexNegatedParenLexemesFrom3(s: string)
    requires s == "4" + ")"
    ensures LexOperand(s, 1) == Lexed([Value(4.0)] + [CloseParen], Tokenized)
  {
    LeadingSpaceIs(s, 0);
    DigitRunIs(s, 0, 1);
    assert MatchOpenParen(s) == None && MatchValue(s) == Some(1);
    assert s[..1] == "4";
    assert LexemeValue("4") == 4.0;
    LexNegatedParenLexemesFrom4(s[1..]);
    var next := LexAfterValue(s[1..], 1);
    assert LexOperand(s, 1) == Prepend([Value(4.0)], next);
  }

  lemma LexNegatedParenLexemesFrom2(s: string)
    requires s == " -(" + ("4" + ")")
    ensures LexOperand(s, 0) == Lexed([Value(-1.0), Operator(Multiplication), OpenParen] + ([Value(4.0)] + [CloseParen]), Tokenized)
  {
    LeadingSpaceIs(s, 1);
    assert MatchOpenParen(s) == Some(3);
    assert s[..3] == " -(";
    assert OpenParenTokens(" -(") == [Value(-1.0), Operator(Multiplication), OpenParen];
    LexNegatedParenLexemesFrom3(s[3..]);
    var next := LexOperand(s[3..], 1);
    assert LexOperand(s, 0) == Prepend([Value(-1.0), Operator(Multiplication), OpenParen], next);
  }

  lemma LexNegatedParenLexemesFrom1(s: string)
    requires s == " /" + (" -(" + ("4" + ")"))
    ensures LexAfterValue(s, 0) == Lexed([Operator(Division)] + ([Value(-1.0), Operator(Multiplication), OpenParen] + ([Value(4.0)] + [CloseParen])), Tokenized)
  {
    LeadingSpaceIs(s, 1);
    assert MatchCloseParen(s) == None && MatchOperator(s) == Some(2);
    assert s[..2] == " /";
    assert OpTokenFromString(" /") == Some(Division);
    LexNegatedParenLexemesFrom2(s[2..]);
    var next := LexOperand(s[2..], 0);
    assert LexAfterValue(s, 0) == Prepend([Operator(Division)], next);
  }

  lemma LexNegatedParenLexemes(s: string)
    requires s == "2" + (" /" + (" -(" + ("4" + ")")))
    ensures Lex(s) == Lexed([Value(2.0)] + ([Operator(Division)] + ([Value(-1.0), Operator(Multiplication), OpenParen] + ([Value(4.0)] + [CloseParen]))), Tokenized)
  {
    LeadingSpaceIs(s, 0);
    DigitRunIs(s, 0, 1);
    assert MatchOpenParen(s) == None && MatchValue(s) == Some(1);
    assert s[..1] == "2";
    assert LexemeValue("2") == 2.0;
    LexNegatedParenLexemesFrom1(s[1..]);
    var next := LexAfterValue(s[1..], 0);
    assert LexOperand(s, 0) == Prepend([Value(2.0)], next);
  }
  lemma LexNegatedParenByLexeme(s: string)
    requires s == "2 / -(4)"
    ensures s == "2" + (" /" + (" -(" + ("4" + ")")))
  {
  }

  lemma LexNegatedParenTokens()
    ensures [Value(2.0)] + ([Operator(Division)] + ([Value(-1.0), Operator(Multiplication), OpenParen] + ([Value(4.0)] + [CloseParen]))) == [Value(2.0), Operator(Division), Value(-1.0), Operator(Multiplication), OpenParen, Value(4.0), CloseParen]
  {
  }

  lemma LexNegatedParen(s: string)
    requires s == "2 / -(4)"
    ensures Lex(s) == Lexed([Value(2.0), Operator(Division), Value(-1.0), Operator(Multiplication), OpenParen, Value(4.0), CloseParen], Tokenized)
  {
    LexNegatedParenByLexeme(s);
    LexNegatedParenLexemes(s);
    LexNegatedParenTokens();
  }

  /* ---- Missing values ---- */

  lemma LexEmptyParensLexemes(s: string)
    requires s == "(" + ")"
    ensures Lex(s) == Lexed([OpenParen], MissingValue)
  {
    LeadingSpaceIs(s, 0);
    assert MatchOpenParen(s) == Some(1);
    assert s[..1] == "(";
    assert OpenParenTokens("(") == [OpenParen];
    var rest := s[1..];
    LeadingSpaceIs(rest, 0);
    DigitRunIs(rest, 0, 0);
    assert MatchOpenParen(rest) == None && MatchValue(rest) == None;
    assert LexOperand(rest, 1) == Lexed([], MissingValue);
    assert LexOperand(s, 0) == Prepend([OpenParen], LexOperand(rest, 1));
  }
  lemma LexEmptyParens(s: string)
    requires s == "()"
    ensures Lex(s) == Lexed([OpenParen], MissingValue)
  {
    assert s == "(" + ")";
    LexEmptyParensLexemes(s);
  }

  lemma LexMissingOperandLexemesFrom1(s: string)
    requires s == " +" + " * 5"
    ensures LexAfterValue(s, 0) == Lexed([Operator(Addition)], MissingValue)
  {
    LeadingSpaceIs(s, 1);
    assert MatchCloseParen(s) == None && MatchOperator(s) == Some(2);
    assert s[..2] == " +";
    assert OpTokenFromString(" +") == Some(Addition);
    var rest := s[2..];
    LeadingSpaceIs(rest, 1);
    DigitRunIs(rest, 1, 0);
    assert MatchOpenParen(rest) == None && MatchValue(rest) == None;
    assert LexOperand(rest, 0) == Lexed([], MissingValue);
    assert LexAfterValue(s, 0) == Prepend([Operator(Addition)], LexOperand(rest, 0));
  }

  lemma LexMissingOperandLexemes(s: string)
    requires s == "6" + (" +" + " * 5")
    ensures Lex(s) == Lexed([Value(6.0)] + [Operator(Addition)], MissingValue)
  {
    LeadingSpaceIs(s, 0);
    DigitRunIs(s, 0, 1);
    assert MatchOpenParen(s) == None && MatchValue(s) == Some(1);
    assert s[..1] == "6";
    assert LexemeValue("6") == 6.0;
    LexMissingOperandLexemesFrom1(s[1..]);
    var next := LexAfterValue(s[1..], 0);
    assert LexOperand(s, 0) == Prepend([Value(6.0)], next);
  }
  lemma LexMissingOperand(s: string)
    requires s == "6 + * 5"
    ensures Lex(s) == Lexed([Value(6.0), Operator(Addition)], MissingValue)
  {
    assert s == "6" + (" +" + " * 5");
    LexMissingOperandLexemes(s);
  }

  lemma LexOperandBeforeCloseLexemesFrom2(s: string)
    requires s == " +" + " )"
    ensures LexAfterValue(s, 1) == Lexed([Operator(Addition)], MissingValue)
  {
    LeadingSpaceIs(s, 1);
    assert MatchCloseParen(s) == None && MatchOperator(s) == Some(2);
    assert s[..2] == " +";
    assert OpTokenFromString(" +") == Some(Addition);
    var rest := s[2..];
    LeadingSpaceIs(rest, 1);
    DigitRunIs(rest, 1, 0);
    assert MatchOpenParen(rest) == None && MatchValue(rest) == None;
    assert LexOperand(rest, 1) == Lexed([], MissingValue);
    assert LexAfterValue(s, 1) == Prepend([Operator(Addition)], LexOperand(rest, 1));
  }

  lemma LexOperandBeforeCloseLexemesFrom1(s: string)
    requires s == "3" + (" +" + " )")
    ensures LexOperand(s, 1) == Lexed([Value(3.0)] + [Operator(Addition)], MissingValue)
  {
    LeadingSpaceIs(s, 0);
    DigitRunIs(s, 0, 1);
    assert MatchOpenParen(s) == None && MatchValue(s) == Some(1);
    assert s[..1] == "3";
    assert LexemeValue("3") == 3.0;
    LexOperandBeforeCloseLexemesFrom2(s[1..]);
    var next := LexAfterValue(s[1..], 1);
    assert LexOperand(s, 1) == Prepend([Value(3.0)], next);
  }

  lemma LexOperandBeforeCloseLexemes(s: string)
    requires s == "(" + ("3" + (" +" + " )"))
    ensures Lex(s) == Lexed([OpenParen] + ([Value(3.0)] + [Operator(Addition)]), MissingValue)
  {
    LeadingSpaceIs(s, 0);
    assert MatchOpenParen(s) == Some(1);
    assert s[..1] == "(";
    assert OpenParenTokens("(") == [OpenParen];
    LexOperandBeforeCloseLexemesFrom1(s[1..]);
    var next := LexOperand(s[1..], 1);
    assert LexOperand(s, 0) == Prepend([OpenParen], next);
  }
  lemma LexOperandBeforeClose(s: string)
    requires s == "(3 + )"
    ensures Lex(s) == Lexed([OpenParen, Value(3.0), Operator(Addition)], MissingValue)
  {
    assert s == "(" + ("3" + (" +" + " )"));
    LexOperandBeforeCloseLexemes(s);
  }

  /* ---- Missing operators ---- */

  lemma LexMissingOperatorLexemesFrom2(s: string)
    requires s == " 8" + " 9"
    ensures LexOperand(s, 0) == Lexed([Value(8.0)], MissingOperator)
  {
    LeadingSpaceIs(s, 1);
    DigitRunIs(s, 1, 1);
    assert MatchOpenParen(s) == None && MatchValue(s) == Some(2);
    assert s[..2] == " 8";
    assert LexemeValue(" 8") == 8.0;
    var rest := s[2..];
    LeadingSpaceIs(rest, 1);
    assert MatchCloseParen(rest) == None && MatchOperator(rest) == None;
    assert !MatchWhitespace(rest);
    assert LexAfterValue(rest, 0) == Lexed([], MissingOperator);
    assert LexOperand(s, 0) == Prepend([Value(8.0)], LexAfterValue(rest, 0));
  }

  lemma LexMissingOperatorLexemesFrom1(s: string)
    requires s == " +" + (" 8" + " 9")
    ensures LexAfterValue(s, 0) == Lexed([Operator(Addition)] + [Value(8.0)], MissingOperator)
  {
    LeadingSpaceIs(s, 1);
    assert MatchCloseParen(s) == None && MatchOperator(s) == Some(2);
    assert s[..2] == " +";
    assert OpTokenFromString(" +") == Some(Addition);
    LexMissingOperatorLexemesFrom2(s[2..]);
    var next := LexOperand(s[2..], 0);
    assert LexAfterValue(s, 0) == Prepend([Operator(Addition)], next);
  }

  lemma LexMissingOperatorLexemes(s: string)
    requires s == "7" + (" +" + (" 8" + " 9"))
    ensures Lex(s) == Lexed([Value(7.0)] + ([Operator(Addition)] + [Value(8.0)]), MissingOperator)
  {
    LeadingSpaceIs(s, 0);
    DigitRunIs(s, 0, 1);
    assert MatchOpenParen(s) == None && MatchValue(s) == Some(1);
    assert s[..1] == "7";
    assert LexemeValue("7") == 7.0;
    LexMissingOperatorLexemesFrom1(s[1..]);
    var next := LexAfterValue(s[1..], 0);
    assert LexOperand(s, 0) == Prepend([Value(7.0)], next);
  }
  lemma LexMissingOperator(s: string)
    requires s == "7 + 8 9"
    ensures Lex(s) == Lexed([Value(7.0), Operator(Addition), Value(8.0)], MissingOperator)
  {
    assert s == "7" + (" +" + (" 8" + " 9"));
    LexMissingOperatorLexemes(s);
  }

  lemma LexRepeatedPointLexemes(s: string)
    requires s == "7.8" + ".9"
    ensures Lex(s) == Lexed([Value(7.8)], MissingOperator)
  {
    LeadingSpaceIs(s, 0);
    DigitRunIs(s, 0, 1);
    DigitRunIs(s, 2, 1);
    assert MatchOpenParen(s) == None && MatchValue(s) == Some(3);
    assert s[..3] == "7.8";
    SevenPointEight(s[..3]);
    var rest := s[3..];
    LeadingSpaceIs(rest, 0);
    assert MatchCloseParen(rest) == None && MatchOperator(rest) == None;
    assert !MatchWhitespace(rest);
    assert LexAfterValue(rest, 0) == Lexed([], MissingOperator);
    assert LexOperand(s, 0) == Prepend([Value(7.8)], LexAfterValue(rest, 0));
  }
  lemma LexRepeatedPoint(s: string)
    requires s == "7.8.9"
    ensures Lex(s) == Lexed([Value(7.8)], MissingOperator)
  {
    assert s == "7.8" + ".9";
    LexRepeatedPointLexemes(s);
  }

  lemma LexValueBeforeParenLexemes(s: string)
    requires s == "4" + "(3 + 2)"
    ensures Lex(s) == Lexed([Value(4.0)], MissingOperator)
  {
    LeadingSpaceIs(s, 0);
    DigitRunIs(s, 0, 1);
    assert MatchOpenParen(s) == None && MatchValue(s) == Some(1);
    assert s[..1] == "4";
    assert LexemeValue("4") == 4.0;
    var rest := s[1..];
    LeadingSpaceIs(rest, 0);
    assert MatchCloseParen(rest) == None && MatchOperator(rest) == None;
    assert !MatchWhitespace(rest);
    assert LexAfterValue(rest, 0) == Lexed([], MissingOperator);
    assert LexOperand(s, 0) == Prepend([Value(4.0)], LexAfterValue(rest, 0));
  }
  lemma LexValueBeforeParen(s: string)
    requires s == "4(3 + 2)"
    ensures Lex(s) == Lexed([Value(4.0)], MissingOperator)
  {
    assert s == "4" + "(3 + 2)";
    LexValueBeforeParenLexemes(s);
  }

  /* ---- Unbalanced parentheses ---- */

  lemma LexUnclosedLexemesFrom3(s: string)
    requires s == " 1"
    ensures LexOperand(s, 1) == Lexed([Value(1.0)], UnbalancedParens)
  {
    LeadingSpaceIs(s, 1);
    DigitRunIs(s, 1, 1);
    assert MatchOpenParen(s) == None && MatchValue(s) == Some(2);
    assert s[..2] == " 1";
    assert LexemeValue(" 1") == 1.0;
    var rest := s[2..];
    LeadingSpaceIs(rest, 0);
    assert MatchCloseParen(rest) == None && MatchOperator(rest) == None;
    assert LexAfterValue(rest, 1) == Lexed([], UnbalancedParens);
    assert LexOperand(s, 1) == Prepend([Value(1.0)], LexAfterValue(rest, 1));
  }

  lemma LexUnclosedLexemesFrom2(s: string)
    requires s == " +" + " 1"
    ensures LexAfterValue(s, 1) == Lexed([Operator(Addition)] + [Value(1.0)], UnbalancedParens)
  {
    LeadingSpaceIs(s, 1);
    assert MatchCloseParen(s) == None && MatchOperator(s) == Some(2);
    assert s[..2] == " +";
    assert OpTokenFromString(" +") == Some(Addition);
    LexUnclosedLexemesFrom3(s[2..]);
    var next := LexOperand(s[2..], 1);
    assert LexAfterValue(s, 1) == Prepend([Operator(Addition)], next);
  }

  lemma LexUnclosedLexemesFrom1(s: string)
    requires s == "1" + (" +" + " 1")
    ensures LexOperand(s, 1) == Lexed([Value(1.0)] + ([Operator(Addition)] + [Value(1.0)]), UnbalancedParens)
  {
    LeadingSpaceIs(s, 0);
    DigitRunIs(s, 0, 1);
    assert MatchOpenParen(s) == None && MatchValue(s) == Some(1);
    assert s[..1] == "1";
    assert LexemeValue("1") == 1.0;
    LexUnclosedLexemesFrom2(s[1..]);
    var next := LexAfterValue(s[1..], 1);
    assert LexOperand(s, 1) == Prepend([Value(1.0)], next);
  }

  lemma LexUnclosedLexemes(s: string)
    requires s == "(" + ("1" + (" +" + " 1"))
    ensures Lex(s) == Lexed([OpenParen] + ([Value(1.0)] + ([Operator(Addition)] + [Value(1.0)])), UnbalancedParens)
  {
    LeadingSpaceIs(s, 0);
    assert MatchOpenParen(s) == Some(1);
    assert s[..1] == "(";
    assert OpenParenTokens("(") == [OpenParen];
    LexUnclosedLexemesFrom1(s[1..]);
    var next := LexOperand(s[1..], 1);
    assert LexOperand(s, 0) == Prepend([OpenParen], next);
  }
  lemma LexUnclosed(s: string)
    requires s == "(1 + 1"
    ensures Lex(s) == Lexed([OpenParen, Value(1.0), Operator(Addition), Value(1.0)], UnbalancedParens)
  {
    assert s == "(" + ("1" + (" +" + " 1"));
    LexUnclosedLexemes(s);
  }

  lemma LexUnopenedLexemesFrom3(s: string)
    requires s == ")"
    ensures LexAfterValue(s, 0) == Lexed([CloseParen], UnbalancedParens)
  {
    LeadingSpaceIs(s, 0);
    assert MatchCloseParen(s) == Some(1);
    assert s[..1] == ")";
    var rest := s[1..];
    LeadingSpaceIs(rest, 0);
    assert MatchCloseParen(rest) == None && MatchOperator(rest) == None;
    assert LexAfterValue(rest, -1) == Lexed([], UnbalancedParens);
    assert LexAfterValue(s, 0) == Prepend([CloseParen], LexAfterValue(rest, -1));
  }

  lemma LexUnopenedLexemesFrom2(s: string)
    requires s == " 1" + ")"
    ensures LexOperand(s, 0) == Lexed([Value(1.0)] + [CloseParen], UnbalancedParens)
  {
    LeadingSpaceIs(s, 1);
    DigitRunIs(s, 1, 1);
    assert MatchOpenParen(s) == None && MatchValue(s) == Some(2);
    assert s[..2] == " 1";
    assert LexemeValue(" 1") == 1.0;
    LexUnopenedLexemesFrom3(s[2..]);
    var next := LexAfterValue(s[2..], 0);
    assert LexOperand(s, 0) == Prepend([Value(1.0)], next);
  }

  lemma LexUnopenedLexemesFrom1(s: string)
    requires s == " +" + (" 1" + ")")
    ensures LexAfterValue(s, 0) == Lexed([Operator(Addition)] + ([Value(1.0)] + [CloseParen]), UnbalancedParens)
  {
    LeadingSpaceIs(s, 1);
    assert MatchCloseParen(s) == None && MatchOperator(s) == Some(2);
    assert s[..2] == " +";
    assert OpTokenFromString(" +") == Some(Addition);
    LexUnopenedLexemesFrom2(s[2..]);
    var next := LexOperand(s[2..], 0);
    assert LexAfterValue(s, 0) == Prepend([Operator(Addition)], next);
  }

  lemma LexUnopenedLexemes(s: string)
    requires s == "1" + (" +" + (" 1" + ")"))
    ensures Lex(s) == Lexed([Value(1.0)] + ([Operator(Addition)] + ([Value(1.0)] + [CloseParen])), UnbalancedParens)
  {
    LeadingSpaceIs(s, 0);
    DigitRunIs(s, 0, 1);
    assert MatchOpenParen(s) == None && MatchValue(s) == Some(1);
    assert s[..1] == "1";
    assert LexemeValue("1") == 1.0;
    LexUnopenedLexemesFrom1(s[1..]);
    var next := LexAfterValue(s[1..], 0);
    assert LexOperand(s, 0) == Prepend([Value(1.0)], next);
  }
  lemma LexUnopenedByLexeme(s: string)
    requires s == "1 + 1)"
    ensures s == "1" + (" +" + (" 1" + ")"))
  {
  }

  lemma LexUnopenedTokens()
    ensures [Value(1.0)] + ([Operator(Addition)] + ([Value(1.0)] + [CloseParen])) == [Value(1.0), Operator(Addition), Value(1.0), CloseParen]
  {
  }

  lemma LexUnopened(s: string)
    requires s == "1 + 1)"
    ensures Lex(s) == Lexed([Value(1.0), Operator(Addition), Value(1.0), CloseParen], UnbalancedParens)
  {
    LexUnopenedByLexeme(s);
    LexUnopenedLexemes(s);
    LexUnopenedTokens();
  }

  lemma LexDoubledOpenLexemesFrom5(s: string)
    requires s == ")"
    ensures LexAfterValue(s, 2) == Lexed([CloseParen], UnbalancedParens)
  {
    LeadingSpaceIs(s, 0);
    assert MatchCloseParen(s) == Some(1);
    assert s[..1] == ")";
    var rest := s[1..];
    LeadingSpaceIs(rest, 0);
    assert MatchCloseParen(rest) == None && MatchOperator(rest) == None;
    assert LexAfterValue(rest, 1) == Lexed([], UnbalancedParens);
    assert LexAfterValue(s, 2) == Prepend([CloseParen], LexAfterValue(rest, 1));
  }

  lemma LexDoubledOpenLexemesFrom4(s: string)
    requires s == " 1" + ")"
    ensures LexOperand(s, 2) == Lexed([Value(1.0)] + [CloseParen], UnbalancedParens)
  {
    LeadingSpaceIs(s, 1);
    DigitRunIs(s, 1, 1);
    assert MatchOpenParen(s) == None && MatchValue(s) == Some(2);
    assert s[..2] == " 1";
    assert LexemeValue(" 1") == 1.0;
    LexDoubledOpenLexemesFrom5(s[2..]);
    var next := LexAfterValue(s[2..], 2);
    assert LexOperand(s, 2) == Prepend([Value(1.0)], next);
  }

  lemma LexDoubledOpenLexemesFrom3(s: string)
    requires s == " +" + (" 1" + ")")
    ensures LexAfterValue(s, 2) == Lexed([Operator(Addition)] + ([Value(1.0)] + [CloseParen]), UnbalancedParens)
  {
    LeadingSpaceIs(s, 1);
    assert MatchCloseParen(s) == None && MatchOperator(s) == Some(2);
    assert s[..2] == " +";
    assert OpTokenFromString(" +") == Some(Addition);
    LexDoubledOpenLexemesFrom4(s[2..]);
    var next := LexOperand(s[2..], 2);
    assert LexAfterValue(s, 2) == Prepend([Operator(Addition)], next);
  }

  lemma LexDoubledOpenLexemesFrom2(s: string)
    requires s == "1" + (" +" + (" 1" + ")"))
    ensures LexOperand(s, 2) == Lexed([Value(1.0)] + ([Operator(Addition)] + ([Value(1.0)] + [CloseParen])), UnbalancedParens)
  {
    LeadingSpaceIs(s, 0);
    DigitRunIs(s, 0, 1);
    assert MatchOpenParen(s) == None && MatchValue(s) == Some(1);
    assert s[..1] == "1";
    assert LexemeValue("1") == 1.0;
    LexDoubledOpenLexemesFrom3(s[1..]);
    var next := LexAfterValue(s[1..], 2);
    assert LexOperand(s, 2) == Prepend([Value(1.0)], next);
  }

  lemma LexDoubledOpenLexemesFrom1(s: string)
    requires s == "(" + ("1" + (" +" + (" 1" + ")")))
    ensures LexOperand(s, 1) == Lexed([OpenParen] + ([Value(1.0)] + ([Operator(Addition)] + ([Value(1.0)] + [CloseParen]))), UnbalancedParens)
  {
    LeadingSpaceIs(s, 0);
    assert MatchOpenParen(s) == Some(1);
    assert s[..1] == "(";
    assert OpenParenTokens("(") == [OpenParen];
    LexDoubledOpenLexemesFrom2(s[1..]);
    var next := LexOperand(s[1..], 2);
    assert LexOperand(s, 1) == Prepend([OpenParen], next);
  }

  lemma LexDoubledOpenLexemes(s: string)
    requires s == "(" + ("(" + ("1" + (" +" + (" 1" + ")"))))
    ensures Lex(s) == Lexed([OpenParen] + ([OpenParen] + ([Value(1.0)] + ([Operator(Addition)] + ([Value(1.0)] + [CloseParen])))), UnbalancedParens)
  {
    LeadingSpaceIs(s, 0);
    assert MatchOpenParen(s) == Some(1);
    assert s[..1] == "(";
    assert OpenParenTokens("(") == [OpenParen];
    LexDoubledOpenLexemesFrom1(s[1..]);
    var next := LexOperand(s[1..], 1);
    assert LexOperand(s, 0) == Prepend([OpenParen], next);
  }
  lemma LexDoubledOpenByLexeme(s: string)
    requires s == "((1 + 1)"
    ensures s == "(" + ("(" + ("1" + (" +" + (" 1" + ")"))))
  {
  }

  lemma LexDoubledOpenTokens()
    ensures [OpenParen] + ([OpenParen] + ([Value(1.0)] + ([Operator(Addition)] + ([Value(1.0)] + [CloseParen])))) == [OpenParen, OpenParen, Value(1.0), Operator(Addition), Value(1.0), CloseParen]
  {
  }

  lemma LexDoubledOpen(s: string)
    requires s == "((1 + 1)"
    ensures Lex(s) == Lexed([OpenParen, OpenParen, Value(1.0), Operator(Addition), Value(1.0), CloseParen], UnbalancedParens)
  {
    LexDoubledOpenByLexeme(s);
    LexDoubledOpenLexemes(s);
    LexDoubledOpenTokens();
  }

  lemma LexDoubledCloseLexemesFrom5(s: string)
    requires s == ")"
    ensures LexAfterValue(s, 0) == Lexed([CloseParen], UnbalancedParens)
  {
    LeadingSpaceIs(s, 0);
    assert MatchCloseParen(s) == Some(1);
    assert s[..1] == ")";
    var rest := s[1..];
    LeadingSpaceIs(rest, 0);
    assert MatchCloseParen(rest) == None && MatchOperator(rest) == None;
    assert LexAfterValue(rest, -1) == Lexed([], UnbalancedParens);
    assert LexAfterValue(s, 0) == Prepend([CloseParen], LexAfterValue(rest, -1));
  }

  lemma LexDoubledCloseLexemesFrom4(s: string)
    requires s == ")" + ")"
    ensures LexAfterValue(s, 1) == Lexed([CloseParen] + [CloseParen], UnbalancedParens)
  {
    LeadingSpaceIs(s, 0);
    assert MatchCloseParen(s) == Some(1);
    assert s[..1] == ")";
    LexDoubledCloseLexemesFrom5(s[1..]);
    var next := LexAfterValue(s[1..], 0);
    assert LexAfterValue(s, 1) == Prepend([CloseParen], next);
  }

  lemma LexDoubledCloseLexemesFrom3(s: string)
    requires s == " 1" + (")" + ")")
    ensures LexOperand(s, 1) == Lexed([Value(1.0)] + ([CloseParen] + [CloseParen]), UnbalancedParens)
  {
    LeadingSpaceIs(s, 1);
    DigitRunIs(s, 1, 1);
    assert MatchOpenParen(s) == None && MatchValue(s) == Some(2);
    assert s[..2] == " 1";
    assert LexemeValue(" 1") == 1.0;
    LexDoubledCloseLexemesFrom4(s[2..]);
    var next := LexAfterValue(s[2..], 1);
    assert LexOperand(s, 1) == Prepend([Value(1.0)], next);
  }

  lemma LexDoubledCloseLexemesFrom2(s: string)
    requires s == " +" + (" 1" + (")" + ")"))
    ensures LexAfterValue(s, 1) == Lexed([Operator(Addition)] + ([Value(1.0)] + ([CloseParen] + [CloseParen])), UnbalancedParens)
  {
    LeadingSpaceIs(s, 1);
    assert MatchCloseParen(s) == None && MatchOperator(s) == Some(2);
    assert s[..2] == " +";
    assert OpTokenFromString(" +") == Some(Addition);
    LexDoubledCloseLexemesFrom3(s[2..]);
    var next := LexOperand(s[2..], 1);
    assert LexAfterValue(s, 1) == Prepend([Operator(Addition)], next);
  }

  lemma LexDoubledCloseLexemesFrom1(s: string)
    requires s == "1" + (" +" + (" 1" + (")" + ")")))
    ensures LexOperand(s, 1) == Lexed([Value(1.0)] + ([Operator(Addition)] + ([Value(1.0)] + ([CloseParen] + [CloseParen]))), UnbalancedParens)
  {
    LeadingSpaceIs(s, 0);
    DigitRunIs(s, 0, 1);
    assert MatchOpenParen(s) == None && MatchValue(s) == Some(1);
    assert s[..1] == "1";
    assert LexemeValue("1") == 1.0;
    LexDoubledCloseLexemesFrom2(s[1..]);
    var next := LexAfterValue(s[1..], 1);
    assert LexOperand(s, 1) == Prepend([Value(1.0)], next);
  }

  lemma LexDoubledCloseLexemes(s: string)
    requires s == "(" + ("1" + (" +" + (" 1" + (")" + ")"))))
    ensures Lex(s) == Lexed([OpenParen] + ([Value(1.0)] + ([Operator(Addition)] + ([Value(1.0)] + ([CloseParen] + [CloseParen])))), UnbalancedParens)
  {
    LeadingSpaceIs(s, 0);
    assert MatchOpenParen(s) == Some(1);
    assert s[..1] == "(";
    assert OpenParenTokens("(") == [OpenParen];
    LexDoubledCloseLexemesFrom1(s[1..]);
    var next := LexOperand(s[1..], 1);
    assert LexOperand(s, 0) == Prepend([OpenParen], next);
  }
  lemma LexDoubledCloseByLexeme(s: string)
    requires s == "(1 + 1))"
    ensures s == "(" + ("1" + (" +" + (" 1" + (")" + ")"))))
  {
  }

  lemma LexDoubledCloseTokens()
    ensures [OpenParen] + ([Value(1.0)] + ([Operator(Addition)] + ([Value(1.0)] + ([CloseParen] + [CloseParen])))) == [OpenParen, Value(1.0), Operator(Addition), Value(1.0), CloseParen, CloseParen]
  {
  }

  lemma LexDoubledClose(s: string)
    requires s == "(1 + 1))"
    ensures Lex(s) == Lexed([OpenParen, Value(1.0), Operator(Addition), Value(1.0), CloseParen, CloseParen], UnbalancedParens)
  {
    LexDoubledCloseByLexeme(s);
    LexDoubledCloseLexemes(s);
    LexDoubledCloseTokens();
  }

  /* ---- `(1)) + (1` ---- */

  lemma LexCloseBeforeOpenLexemesFrom6(s: string)
    requires s == "1"
    ensures LexOperand(s, 0) == Lexed([Value(1.0)], Tokenized)
  {
    LeadingSpaceIs(s, 0);
    DigitRunIs(s, 0, 1);
    assert MatchOpenParen(s) == None && MatchValue(s) == Some(1);
    assert s[..1] == "1";
    assert LexemeValue("1") == 1.0;
    var rest := s[1..];
    LeadingSpaceIs(rest, 0);
    assert MatchCloseParen(rest) == None && MatchOperator(rest) == None;
    assert LexAfterValue(rest, 0) == Lexed([], Tokenized);
    assert LexOperand(s, 0) == Prepend([Value(1.0)], LexAfterValue(rest, 0));
  }

  lemma LexCloseBeforeOpenLexemesFrom5(s: string)
    requires s == " (" + "1"
    ensures LexOperand(s, -1) == Lexed([OpenParen] + [Value(1.0)], Tokenized)
  {
    LeadingSpaceIs(s, 1);
    assert MatchOpenParen(s) == Some(2);
    assert s[..2] == " (";
    assert OpenParenTokens(" (") == [OpenParen];
    LexCloseBeforeOpenLexemesFrom6(s[2..]);
    var next := LexOperand(s[2..], 0);
    assert LexOperand(s, -1) == Prepend([OpenParen], next);
  }

  lemma LexCloseBeforeOpenLexemesFrom4(s: string)
    requires s == " +" + (" (" + "1")
    ensures LexAfterValue(s, -1) == Lexed([Operator(Addition)] + ([OpenParen] + [Value(1.0)]), Tokenized)
  {
    LeadingSpaceIs(s, 1);
    assert MatchCloseParen(s) == None && MatchOperator(s) == Some(2);
    assert s[..2] == " +";
    assert OpTokenFromString(" +") == Some(Addition);
    LexCloseBeforeOpenLexemesFrom5(s[2..]);
    var next := LexOperand(s[2..], -1);
    assert LexAfterValue(s, -1) == Prepend([Operator(Addition)], next);
  }

  lemma LexCloseBeforeOpenLexemesFrom3(s: string)
    requires s == ")" + (" +" + (" (" + "1"))
    ensures LexAfterValue(s, 0) == Lexed([CloseParen] + ([Operator(Addition)] + ([OpenParen] + [Value(1.0)])), Tokenized)
  {
    LeadingSpaceIs(s, 0);
    assert MatchCloseParen(s) == Some(1);
    assert s[..1] == ")";
    LexCloseBeforeOpenLexemesFrom4(s[1..]);
    var next := LexAfterValue(s[1..], -1);
    assert LexAfterValue(s, 0) == Prepend([CloseParen], next);
  }

  lemma LexCloseBeforeOpenLexemesFrom2(s: string)
    requires s == ")" + (")" + (" +" + (" (" + "1")))
    ensures LexAfterValue(s, 1) == Lexed([CloseParen] + ([CloseParen] + ([Operator(Addition)] + ([OpenParen] + [Value(1.0)]))), Tokenized)
  {
    LeadingSpaceIs(s, 0);
    assert MatchCloseParen(s) == Some(1);
    assert s[..1] == ")";
    LexCloseBeforeOpenLexemesFrom3(s[1..]);
    var next := LexAfterValue(s[1..], 0);
    assert LexAfterValue(s, 1) == Prepend([CloseParen], next);
  }

  lemma LexCloseBeforeOpenLexemesFrom1(s: string)
    requires s == "1" + (")" + (")" + (" +" + (" (" + "1"))))
    ensures LexOperand(s, 1) == Lexed([Value(1.0)] + ([CloseParen] + ([CloseParen] + ([Operator(Addition)] + ([OpenParen] + [Value(1.0)])))), Tokenized)
  {
    LeadingSpaceIs(s, 0);
    DigitRunIs(s, 0, 1);
    assert MatchOpenParen(s) == None && MatchValue(s) == Some(1);
    assert s[..1] == "1";
    assert LexemeValue("1") == 1.0;
    LexCloseBeforeOpenLexemesFrom2(s[1..]);
    var next := LexAfterValue(s[1..], 1);
    assert LexOperand(s, 1) == Prepend([Value(1.0)], next);
  }

  lemma LexCloseBeforeOpenLexemes(s: string)
    requires s == "(" + ("1" + (")" + (")" + (" +" + (" (" + "1")))))
    ensures Lex(s) == Lexed([OpenParen] + ([Value(1.0)] + ([CloseParen] + ([CloseParen] + ([Operator(Addition)] + ([OpenParen] + [Value(1.0)]))))), Tokenized)
  {
    LeadingSpaceIs(s, 0);
    assert MatchOpenParen(s) == Some(1);
    assert s[..1] == "(";
    assert OpenParenTokens("(") == [OpenParen];
    LexCloseBeforeOpenLexemesFrom1(s[1..]);
    var next := LexOperand(s[1..], 1);
    assert LexOperand(s, 0) == Prepend([OpenParen], next);
  }
  lemma LexCloseBeforeOpenByLexeme(s: string)
    requires s == "(1)) + (1"
    ensures s == "(" + ("1" + (")" + (")" + (" +" + (" (" + "1")))))
  {
  }

  lemma LexCloseBeforeOpenTokens()
    ensures [OpenParen] + ([Value(1.0)] + ([CloseParen] + ([CloseParen] + ([Operator(Addition)] + ([OpenParen] + [Value(1.0)]))))) == [OpenParen, Value(1.0), CloseParen, CloseParen, Operator(Addition), OpenParen, Value(1.0)]
  {
  }

  lemma LexCloseBeforeOpen(s: string)
    requires s == "(1)) + (1"
    ensures Lex(s) == Lexed([OpenParen, Value(1.0), CloseParen, CloseParen, Operator(Addition), OpenParen, Value(1.0)], Tokenized)
  {
    LexCloseBeforeOpenByLexeme(s);
    LexCloseBeforeOpenLexemes(s);
    LexCloseBeforeOpenTokens();
  }

  /* ---- Evaluation ---- */

  /** A single value is valid and evaluates to itself. */
  lemma EvaluateFive(e: string, oldValue: Double, oldTokens: seq<Token>)
    requires e == "5"
    ensures Evaluate(e, oldValue, oldTokens) == Outcome(Finite(5.0), [Value(5.0)], true, MsgNoError, None)
  {
    LexFive(e);
    EvaluatesPrinted(Sum(Lit(5.0), Stop));
    ResolvedReported(e, oldValue, oldTokens, Finite(5.0));
  }

  /** A signed value after an operator is one value: `2 * -3` is -6, whatever was evaluated before. */
  lemma EvaluateTwoTimesNegThree(e: string, oldValue: Double, oldTokens: seq<Token>)
    requires e == "2 * -3"
    ensures Evaluate(e, oldValue, oldTokens) ==
      Outcome(Finite(-6.0), [Value(2.0), Operator(Multiplication), Value(-3.0)], true, MsgNoError, None)
  {
    LexTwoTimesNegThree(e);
    TwoTimesNegThreePrinted();
    TwoTimesNegThreeValue();
    EvaluatesPrinted(TwoTimesNegThreeTree());
    ResolvedReported(e, oldValue, oldTokens, Finite(-6.0));
  }

  /** `2 * -3` as a syntax tree. */
  function TwoTimesNegThreeTree(): Sum {
    Sum(Product(Literal(2.0), Step(Multiplication, Literal(-3.0), Done)), Stop)
  }

  lemma TwoTimesNegThreePrinted()
    ensures PrintSum(TwoTimesNegThreeTree()) == [Value(2.0), Operator(Multiplication), Value(-3.0)]
  {
    assert PrintFactor(TwoTimesNegThreeTree().head.first) == [Value(2.0)];
  }

  lemma TwoTimesNegThreeValue()
    ensures SumOk(TwoTimesNegThreeTree()) && EvalSum(TwoTimesNegThreeTree()) == Finite(-6.0)
  {
  }

  /** The featured expression as a syntax tree. */
  function FeaturedTree(): Sum {
    var sum := Sum(Lit(-2.0), Plus(Sum(Lit(4.1), Stop)));
    var product := Product(Literal(-1.0), Step(Multiplication, Paren(sum), Step(Multiplication, Literal(6.0), Done)));
    var difference := Sum(Lit(-3.0), Minus(Sum(Lit(2.0), Stop)));
    var quotient := Sum(Product(Literal(2.0), Step(Division, Paren(difference), Done)), Stop);
    Sum(product, Plus(Sum(Product(Paren(quotient), Done), Stop)))
  }

  lemma FeaturedPrinted()
    ensures PrintSum(FeaturedTree()) ==
      [Value(-1.0), Operator(Multiplication), OpenParen, Value(-2.0), Operator(Addition), Value(4.1), CloseParen,
       Operator(Multiplication), Value(6.0), Operator(Addition), OpenParen, Value(2.0), Operator(Division), OpenParen,
       Value(-3.0), Operator(Subtraction), Value(2.0), CloseParen, CloseParen]
  {
    var t := FeaturedTree();
    var product := t.head;
    var quotient := t.tail.rest.head.first.inner;
    assert PrintProduct(product) ==
      [Value(-1.0), Operator(Multiplication), OpenParen, Value(-2.0), Operator(Addition), Value(4.1), CloseParen,
       Operator(Multiplication), Value(6.0)];
    assert PrintSum(quotient) ==
      [Value(2.0), Operator(Division), OpenParen, Value(-3.0), Operator(Subtraction), Value(2.0), CloseParen];
  }

  lemma FeaturedValue()
    ensures SumOk(FeaturedTree()) && EvalSum(FeaturedTree()) == Finite(-13.0)
  {
    var t := FeaturedTree();
    assert FoldChain(EvalFactor(t.head.first), t.head.chain) == Finite(-12.6);
    assert EvalSum(t.tail.rest) == Finite(-0.4);
  }

  /** Negated and signed parentheses, fractions and precedence together: the expression is -13. */
  lemma EvaluateFeatured(e: string, oldValue: Double, oldTokens: seq<Token>)
    requires e == "-(-2 + 4.1) * 6 + (2.0 / +(-3 - 2))"
    ensures Evaluate(e, oldValue, oldTokens).isValid
    ensures Evaluate(e, oldValue, oldTokens).value == Finite(-13.0)
    ensures Evaluate(e, oldValue, oldTokens).errorMessage == MsgNoError
  {
    LexFeatured(e);
    FeaturedPrinted();
    FeaturedValue();
    EvaluatesPrinted(FeaturedTree());
    ResolvedReported(e, oldValue, oldTokens, Finite(-13.0));
  }

  /** Division by zero gives an infinite value, which is reported and leaves the expression invalid. */
  lemma EvaluateSixOverZero(e: string, oldValue: Double, oldTokens: seq<Token>)
    requires e == "6 / 0"
    ensures Evaluate(e, oldValue, oldTokens) ==
      Outcome(Infinity(false), [Value(6.0), Operator(Division), Value(0.0)], false, MsgInfiniteResult, None)
  {
    LexSixOverZero(e);
    SixOverZeroPrinted();
    SixOverZeroValue();
    EvaluatesPrinted(SixOverZeroTree());
    ResolvedReported(e, oldValue, oldTokens, Infinity(false));
  }

  /** `6 / 0` as a syntax tree. */
  function SixOverZeroTree(): Sum {
    Sum(Product(Literal(6.0), Step(Division, Literal(0.0), Done)), Stop)
  }

  lemma SixOverZeroPrinted()
    ensures PrintSum(SixOverZeroTree()) == [Value(6.0), Operator(Division), Value(0.0)]
  {
    assert PrintFactor(SixOverZeroTree().head.first) == [Value(6.0)];
  }

  lemma SixOverZeroValue()
    ensures SumOk(SixOverZeroTree()) && EvalSum(SixOverZeroTree()) == Infinity(false)
  {
  }

  /** `2 / -(4)` as the lexer leaves it: `2 / -1 * (4)`. */
  function NegatedParenTree(): Sum {
    Sum(Product(Literal(2.0), Step(Division, Literal(-1.0), Step(Multiplication, Paren(Sum(Lit(4.0), Stop)), Done))), Stop)
  }

  lemma NegatedParenPrinted()
    ensures PrintSum(NegatedParenTree()) ==
      [Value(2.0), Operator(Division), Value(-1.0), Operator(Multiplication), OpenParen, Value(4.0), CloseParen]
  {
  }

  lemma NegatedParenValue()
    ensures SumOk(NegatedParenTree()) && EvalSum(NegatedParenTree()) == Finite(-8.0)
  {
    assert Div(Finite(2.0), Finite(-1.0)) == Finite(-2.0);
  }

  /**
   * A negated parenthesis becomes `-1 *` and binds to the left like any
   * product: `2 / -(4)` is `(2 / -1) * 4`, which is -8.
   */
  lemma EvaluateNegatedParen(e: string, oldValue: Double, oldTokens: seq<Token>)
    requires e == "2 / -(4)"
    ensures Evaluate(e, oldValue, oldTokens).isValid
    ensures Evaluate(e, oldValue, oldTokens).value == Finite(-8.0)
  {
    LexNegatedParen(e);
    NegatedParenPrinted();
    NegatedParenValue();
    EvaluatesPrinted(NegatedParenTree());
    ResolvedReported(e, oldValue, oldTokens, Finite(-8.0));
  }

  /** Inputs that stop where an operand is expected report a missing value. */
  lemma EvaluateMissingValues(e1: string, e2: string, e3: string, e4: string, oldValue: Double, oldTokens: seq<Token>)
    requires e1 == "+" && e2 == ")" && e3 == "()" && e4 == "6 + * 5" && !IsInf(oldValue)
    ensures Evaluate(e1, oldValue, oldTokens) == Outcome(oldValue, [], false, MsgValueNotFound, None)
    ensures Evaluate(e2, oldValue, oldTokens) == Outcome(oldValue, [], false, MsgValueNotFound, None)
    ensures Evaluate(e3, oldValue, oldTokens) == Outcome(oldValue, [OpenParen], false, MsgValueNotFound, None)
    ensures Evaluate(e4, oldValue, oldTokens) ==
      Outcome(oldValue, [Value(6.0), Operator(Addition)], false, MsgValueNotFound, None)
  {
    LexLoneSign(e1);
    LexErrorReported(e1, oldValue, oldTokens);
    LexLoneClose(e2);
    LexErrorReported(e2, oldValue, oldTokens);
    LexEmptyParens(e3);
    LexErrorReported(e3, oldValue, oldTokens);
    LexMissingOperand(e4);
    LexErrorReported(e4, oldValue, oldTokens);
  }

  /** An operator followed by `)` is missing its right operand. */
  lemma EvaluateOperandBeforeClose(e: string, oldValue: Double, oldTokens: seq<Token>)
    requires e == "(3 + )" && !IsInf(oldValue)
    ensures Evaluate(e, oldValue, oldTokens) ==
      Outcome(oldValue, [OpenParen, Value(3.0), Operator(Addition)], false, MsgValueNotFound, None)
  {
    LexOperandBeforeClose(e);
    LexErrorReported(e, oldValue, oldTokens);
  }

  /** Inputs that stop where an operator is expected report a missing operator. */
  lemma EvaluateMissingOperators(e1: string, e2: string, e3: string, oldValue: Double, oldTokens: seq<Token>)
    requires e1 == "7 + 8 9" && e2 == "7.8.9" && e3 == "4(3 + 2)" && !IsInf(oldValue)
    ensures Evaluate(e1, oldValue, oldTokens) ==
      Outcome(oldValue, [Value(7.0), Operator(Addition), Value(8.0)], false, MsgOperatorNotFound, None)
    ensures Evaluate(e2, oldValue, oldTokens) == Outcome(oldValue, [Value(7.8)], false, MsgOperatorNotFound, None)
    ensures Evaluate(e3, oldValue, oldTokens) == Outcome(oldValue, [Value(4.0)], false, MsgOperatorNotFound, None)
  {
    LexMissingOperator(e1);
    LexErrorReported(e1, oldValue, oldTokens);
    LexRepeatedPoint(e2);
    LexErrorReported(e2, oldValue, oldTokens);
    LexValueBeforeParen(e3);
    LexErrorReported(e3, oldValue, oldTokens);
  }

  /** Inputs lexed to the end with more `(` than `)`, or fewer, report unbalanced parentheses. */
  lemma EvaluateUnbalanced(e1: string, e2: string, oldValue: Double, oldTokens: seq<Token>)
    requires e1 == "(1 + 1" && e2 == "1 + 1)" && !IsInf(oldValue)
    ensures Evaluate(e1, oldValue, oldTokens) ==
      Outcome(oldValue, [OpenParen, Value(1.0), Operator(Addition), Value(1.0)], false, MsgUnbalancedParens, None)
    ensures Evaluate(e2, oldValue, oldTokens) ==
      Outcome(oldValue, [Value(1.0), Operator(Addition), Value(1.0), CloseParen], false, MsgUnbalancedParens, None)
  {
    LexUnclosed(e1);
    LexErrorReported(e1, oldValue, oldTokens);
    LexUnopened(e2);
    LexErrorReported(e2, oldValue, oldTokens);
  }

  /** A doubled `(` or a doubled `)` around an otherwise valid expression is unbalanced. */
  lemma EvaluateDoubledParens(e1: string, e2: string, oldValue: Double, oldTokens: seq<Token>)
    requires e1 == "((1 + 1)" && e2 == "(1 + 1))" && !IsInf(oldValue)
    ensures Evaluate(e1, oldValue, oldTokens) ==
      Outcome(oldValue, [OpenParen, OpenParen, Value(1.0), Operator(Addition), Value(1.0), CloseParen], false, MsgUnbalancedParens, None)
    ensures Evaluate(e2, oldValue, oldTokens) ==
      Outcome(oldValue, [OpenParen, Value(1.0), Operator(Addition), Value(1.0), CloseParen, CloseParen], false, MsgUnbalancedParens, None)
  {
    LexDoubledOpen(e1);
    LexErrorReported(e1, oldValue, oldTokens);
    LexDoubledClose(e2);
    LexErrorReported(e2, oldValue, oldTokens);
  }

  /**
   * Balanced counts, but a `)` before its `(`: the lexer accepts the input
   * and the evaluator raises the unexpected-token logic error, which
   * escapes with the token list cleared.
   */
  lemma EvaluateCloseBeforeOpen(e: string, oldValue: Double, oldTokens: seq<Token>)
    requires e == "(1)) + (1"
    ensures Evaluate(e, oldValue, oldTokens) ==
      Outcome(oldValue, [], false, ExMsgUnexpectedToken, Some(ExMsgUnexpectedToken))
  {
    LexCloseBeforeOpen(e);
    var ts := [OpenParen, Value(1.0), CloseParen, CloseParen, Operator(Addition), OpenParen, Value(1.0)];
    assert Depth(ts, 4) == -1 by {
      assert Depth(ts, 1) == 1;
      assert Depth(ts, 2) == 1;
      assert Depth(ts, 3) == 0;
    }
    RaisedExactly(e, oldValue, oldTokens);
  }

  /**
   * As written, evaluating the empty expression after `6 / 0` reports an
   * infinite result instead of the missing expression: the infinity check
   * reads the value left by the earlier evaluation.
   */
  lemma EmptyAfterDivisionByZero(e: string, oldValue: Double, oldTokens: seq<Token>)
    requires e == "6 / 0"
    ensures var o := Evaluate(e, oldValue, oldTokens);
      Evaluate("", o.value, o.tokens).errorMessage == MsgInfiniteResult
    ensures var o := IntendedEvaluate(e, oldValue, oldTokens);
      IntendedEvaluate("", o.value, o.tokens).errorMessage == MsgEmptyExpression
  {
    EvaluateSixOverZero(e, oldValue, oldTokens);
    IntendedAgrees(e, oldValue, oldTokens);
  }
}
