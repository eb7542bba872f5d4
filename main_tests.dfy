/** Worked inputs: some from the calculator's own test suite (src/main.rs),
    the rest pinning down corner cases of the tokenizer and the grammar.
    Whole inputs go in small steps: the text laid out from its tokens, what
    `tokenize` returns, what `parse` returns for those tokens, and `eval`. */
module MainTests {
  import opened Results
  import opened Tokenizer
  import opened Parser
  import opened Grammar
  import opened Rendering
  import opened Calculator
  import Arith

  /** `eval` of an input whose tokens and value are known. */
  lemma Pipeline(s: string, ts: seq<Token>, v: int)
    requires Tokenized(s) == Ok(ts) && ParseTokens(ts) == Ok(v)
    ensures Evaluate(s) == Ok(v)
  {
  }

  /** `eval` of an input that `tokenize` already rejects. */
  lemma LexStops(s: string, e: LexError)
    requires Tokenized(s) == Err(e)
    ensures Evaluate(s) == Err(LexFailure(e))
  {
  }

  // ---------------------------------------------------------------------
  // basic_addition: "2 + 2" is 4

  lemma TwoPlusTwoText()
    ensures Layout([Num(2), Plus, Num(2)], ["", " ", " "]) == "2 + 2"
  {
    assert DecimalString(2) == "2";
  }

  lemma TwoPlusTwoTokens()
    ensures Tokenized("2 + 2") == Ok([Num(2), Plus, Num(2)])
  {
    TwoPlusTwoText();
    TokenizeLayout([Num(2), Plus, Num(2)], ["", " ", " "]);
  }

  lemma TwoPlusTwoParse()
    ensures ParseTokens([Num(2), Plus, Num(2)]) == Ok(4)
  {
    var e := Bin(Add, Lit(2), Lit(2));
    assert Emit(e, 0) == [Num(2), Plus, Num(2)];
    ParsePrintedAlone(e);
  }

  lemma BasicAddition()
    ensures Evaluate("2 + 2") == Ok(4)
  {
    TwoPlusTwoTokens();
    TwoPlusTwoParse();
    Pipeline("2 + 2", [Num(2), Plus, Num(2)], 4);
  }

  // ---------------------------------------------------------------------
  // basic_factorial: "fac(5)" is 120

  lemma FacFiveText()
    ensures Text([Fac, LParen, Num(5), RParen]) == "fac(5)"
  {
    assert DecimalString(5) == "5";
  }

  lemma FacFiveTokens()
    ensures Tokenized("fac(5)") == Ok([Fac, LParen, Num(5), RParen])
  {
    FacFiveText();
    TokenizeText([Fac, LParen, Num(5), RParen]);
  }

  lemma FacFiveParse()
    ensures ParseTokens([Fac, LParen, Num(5), RParen]) == Ok(120)
  {
    var e := Call(FacFn, Lit(5));
    assert Emit(e, 0) == [Fac, LParen, Num(5), RParen];
    ParsePrintedAlone(e);
    assert Arith.RangeProduct(2, 5) == 120;
  }

  lemma BasicFactorial()
    ensures Evaluate("fac(5)") == Ok(120)
  {
    FacFiveTokens();
    FacFiveParse();
    Pipeline("fac(5)", [Fac, LParen, Num(5), RParen], 120);
  }

  // ---------------------------------------------------------------------
  // unsupported_factorial_with_floats: "fac(3.1)" aborts in the literal
  // conversion

  /** The number run "3.1" is scanned whole and then fails to convert. */
  lemma FractionRun()
    ensures Lex("3.1)") == Err(MalformedLiteral("3.1"))
  {
    LexNumber("3.1", ")");
    assert "3.1" + ")" == "3.1)";
    assert !IsDigit("3.1"[1]);
  }

  lemma ParenthesisedFraction()
    ensures Lex("(3.1)") == Err(MalformedLiteral("3.1"))
  {
    FractionRun();
    LexOtherChar('(', "3.1)");
    assert ['('] + "3.1)" == "(3.1)";
  }

  lemma FactorialOfFractionRuns()
    ensures Lex("fac(3.1)") == Err(MalformedLiteral("3.1"))
  {
    FacBeforeFraction("fac(3.1)", "(3.1)");
  }

  lemma FacBeforeFraction(s: string, rest: string)
    requires rest == "(3.1)" && s == "fac" + rest
    ensures Lex(s) == Err(MalformedLiteral("3.1"))
  {
    ParenthesisedFraction();
    FacThenFailure(rest, MalformedLiteral("3.1"));
  }

  /** A failure right after `fac` is the failure of the whole input. */
  lemma FacThenFailure(rest: string, e: LexError)
    requires rest == [] || !IsAlphabetic(rest[0])
    requires Lex(rest) == Err(e)
    ensures Lex("fac" + rest) == Err(e)
  {
    LexWord("fac", rest);
  }

  lemma FactorialOfFractionTokens()
    ensures Tokenized("fac(3.1)") == Err(MalformedLiteral("3.1"))
  {
    FacFractionTokens("fac(3.1)");
  }

  lemma FacFractionTokens(s: string)
    requires s == "fac(3.1)"
    ensures Tokenized(s) == Err(MalformedLiteral("3.1"))
  {
    FactorialOfFractionRuns();
    UnspacedLexFailure(s, MalformedLiteral("3.1"));
  }

  /** Text without whitespace is tokenized as it stands. */
  lemma UnspacedLexFailure(s: string, e: LexError)
    requires forall i :: 0 <= i < |s| ==> !IsWhitespace(s[i])
    requires Lex(s) == Err(e)
    ensures Tokenized(s) == Err(e)
  {
    StripNoWhitespace(s);
  }

  lemma FactorialOfFraction()
    ensures Evaluate("fac(3.1)") == Err(LexFailure(MalformedLiteral("3.1")))
  {
    FactorialOfFractionTokens();
    LexStops("fac(3.1)", MalformedLiteral("3.1"));
  }

  // ---------------------------------------------------------------------
  // Whitespace is removed before runs are grouped

  /** "1 2" is one number, 12. */
  lemma SpacedDigitsJoin()
    ensures Tokenized("1 2") == Ok([Num(12)])
  {
    assert Tokenized("1 2") == Tokenized("12") by {
      WhitespaceIgnored("1", " ", "2");
      assert "1" + " " + "2" == "1 2" && "1" + "2" == "12";
    }
    assert Tokenized("12") == Ok([Num(12)]) by {
      TokenizeNumberRun("12");
      assert DecimalValue("12") == 12 by {
        assert "12"[..1] == "1" && "1"[..0] == "";
      }
    }
  }

  /** "s qrt" is the function name `sqrt`. */
  lemma SpacedLettersJoin()
    ensures Tokenized("s qrt") == Ok([Sqrt])
  {
    assert Tokenized("s qrt") == Tokenized("sqrt") by {
      WhitespaceIgnored("s", " ", "qrt");
      assert "s" + " " + "qrt" == "s qrt" && "s" + "qrt" == "sqrt";
    }
    TokenizeWord("sqrt");
  }

  // ---------------------------------------------------------------------
  // Runs

  /** A letter run is taken whole: "sqrtabs" names no function. */
  lemma RunTogetherNames()
    ensures Tokenized("sqrtabs") == Err(UnknownOperation("sqrtabs"))
  {
    TokenizeWord("sqrtabs");
  }

  lemma MisspelledName()
    ensures Tokenized("fact") == Err(UnknownOperation("fact"))
  {
    TokenizeWord("fact");
  }

  /** "1.2.3" is one number run, rejected only by the conversion. */
  lemma DottedRun()
    ensures Tokenized("1.2.3") == Err(MalformedLiteral("1.2.3"))
  {
    TokenizeNumberRun("1.2.3");
    assert !IsDigit("1.2.3"[1]);
  }

  /** A number cannot start with '.': the dot becomes `Eof`. */
  lemma LeadingDot()
    ensures Tokenized(".5") == Ok([Eof, Num(5)])
  {
    assert Lex("5") == Ok([Num(5)]) by {
      TokenizeNumberRun("5");
      StripNoWhitespace("5");
    }
    StripNoWhitespace(".5");
    LexOtherChar('.', "5");
    assert ['.'] + "5" == ".5";
    assert [Eof] + [Num(5)] == [Eof, Num(5)];
  }

  // ---------------------------------------------------------------------
  // The grammar on the tokens of more of the suite's inputs

  /** chained_subtractions: 5 - 4 - 3 - 2 is -4. */
  lemma ChainedSubtractions()
    ensures ParseTokens([Num(5), Minus, Num(4), Minus, Num(3), Minus, Num(2)]) == Ok(-4)
  {
    var e1 := Bin(Sub, Lit(5), Lit(4));
    var e2 := Bin(Sub, e1, Lit(3));
    var e := Bin(Sub, e2, Lit(2));
    assert Emit(e1, 0) == [Num(5), Minus, Num(4)];
    assert Emit(e2, 0) == [Num(5), Minus, Num(4), Minus, Num(3)];
    assert Emit(e, 0) == [Num(5), Minus, Num(4), Minus, Num(3), Minus, Num(2)];
    ParsePrintedAlone(e);
  }

  /** chained_divisions: 10 / 5 / 2 is 1. */
  lemma ChainedDivisions()
    ensures ParseTokens([Num(10), Div, Num(5), Div, Num(2)]) == Ok(1)
  {
    DivLeftAssociative(10, 5, 2);
    assert Arith.Quotient(10, 5) == 2 && Arith.Quotient(2, 2) == 1;
  }

  /** basic_power: 2 ^ 3 is 8. */
  lemma BasicPower()
    ensures ParseTokens([Num(2), Pow, Num(3)]) == Ok(8)
  {
    var e := Bin(Raise, Lit(2), Lit(3));
    EmitDescends(e, 0);
    EmitDescends(e, 1);
    EmitDescends(e, 2);
    assert Emit(e, 3) == [Num(2), Pow, Num(3)];
    ParsePrintedAlone(e);
    assert Arith.Pow(2, 3) == 8;
  }

  /** factorial_of_factorial: fac(fac(3)) is 720. */
  lemma FactorialOfFactorial()
    ensures ParseTokens([Fac, LParen, Fac, LParen, Num(3), RParen, RParen]) == Ok(720)
  {
    var inner := Call(FacFn, Lit(3));
    var e := Call(FacFn, inner);
    assert Emit(inner, 0) == [Fac, LParen, Num(3), RParen];
    assert Emit(e, 0) == [Fac, LParen, Fac, LParen, Num(3), RParen, RParen];
    ParsePrintedAlone(e);
    assert Arith.RangeProduct(2, 3) == 6;
    assert Arith.RangeProduct(2, 6) == 720;
  }

  lemma FiveRemTwo()
    ensures Arith.TruncRem(5, 2) == 1
  {
    assert Arith.TruncDiv(5, 2) == 2;
  }

  /** modulo_precedence_with_plusminus: 1 + 5 % 2 is 2. */
  lemma ModuloAfterPlus()
    ensures ParseTokens([Num(1), Plus, Num(5), Mod, Num(2)]) == Ok(2)
  {
    ModBetweenAddAndMul(1, 5, 2);
    FiveRemTwo();
  }

  /** modulo_precedence_with_muldiv: 2 * 3 % 4 is 2. */
  lemma ModuloAfterTimes()
    ensures ParseTokens([Num(2), Mul, Num(3), Mod, Num(4)]) == Ok(2)
  {
    ModBetweenAddAndMul(2, 3, 4);
    SixRemFour();
  }

  lemma SixRemFour()
    ensures Arith.TruncRem(6, 4) == 2
  {
    assert Arith.TruncDiv(6, 4) == 1;
  }

  /** operator_precedence_with_muldiv_and_plusminus: 5 + 3 * 2 is 11. */
  lemma TimesBeforePlus()
    ensures ParseTokens([Num(5), Plus, Num(3), Mul, Num(2)]) == Ok(11)
  {
    MulBeforeAdd(5, 3, 2);
  }

  /** parentheses: 3 - (2 - 1) is 2. */
  lemma Parentheses()
    ensures ParseTokens([Num(3), Minus, LParen, Num(2), Minus, Num(1), RParen]) == Ok(2)
  {
    var inner := Bin(Sub, Lit(2), Lit(1));
    var e := Bin(Sub, Lit(3), inner);
    assert Emit(inner, 0) == [Num(2), Minus, Num(1)];
    assert Emit(inner, 1) == [LParen, Num(2), Minus, Num(1), RParen];
    assert Emit(e, 0) == [Num(3), Minus, LParen, Num(2), Minus, Num(1), RParen];
    ParsePrintedAlone(e);
  }

  /** expression_negation: -(1 + 3) is -4. */
  lemma ExpressionNegation()
    ensures ParseTokens([Minus, LParen, Num(1), Plus, Num(3), RParen]) == Ok(-4)
  {
    var inner := Bin(Add, Lit(1), Lit(3));
    var e := Neg(inner);
    assert Emit(inner, 0) == [Num(1), Plus, Num(3)];
    assert Emit(inner, 4) == [LParen, Num(1), Plus, Num(3), RParen];
    assert Emit(e, 0) == [Minus, LParen, Num(1), Plus, Num(3), RParen];
    ParsePrintedAlone(e);
  }

  /** absolute_value: abs(-5) is 5. */
  lemma AbsoluteValue()
    ensures ParseTokens([Tokenizer.Abs, LParen, Minus, Num(5), RParen]) == Ok(5)
  {
    var e := Call(AbsFn, Neg(Lit(5)));
    assert Emit(Neg(Lit(5)), 0) == [Minus, Num(5)];
    assert Emit(e, 0) == [Tokenizer.Abs, LParen, Minus, Num(5), RParen];
    ParsePrintedAlone(e);
  }

  // ---------------------------------------------------------------------
  // complex_expression:
  //   sqrt(1) * ((fac(3) + (15 * (abs(8^2 - fac(2))) + 3^2)
  //             - ((1 + 2) * (3 + 4) / (1 + 2))) - (-5 + 2))  is 941
  // Two of its pairs of parentheses are redundant; they are `Group`s.

  /** (abs(8^2 - fac(2))), a redundant pair around a call. */
  function AbsGroup(): Ast
  {
    Group(Call(AbsFn, Bin(Sub, Bin(Raise, Lit(8), Lit(2)), Call(FacFn, Lit(2)))))
  }

  lemma AbsGroupPrinted()
    ensures Emit(AbsGroup(), 3)
      == [LParen, Tokenizer.Abs, LParen, Num(8), Pow, Num(2), Minus, Fac, LParen, Num(2), RParen, RParen, RParen]
  {
    var diff := Bin(Sub, Bin(Raise, Lit(8), Lit(2)), Call(FacFn, Lit(2)));
    assert Emit(diff, 0) == [Num(8), Pow, Num(2), Minus, Fac, LParen, Num(2), RParen] by {
      assert Emit(Bin(Raise, Lit(8), Lit(2)), 0) == [Num(8), Pow, Num(2)];
    }
  }

  lemma AbsGroupValue()
    ensures Eval(AbsGroup()) == Ok(62)
  {
    assert Eval(Bin(Raise, Lit(8), Lit(2))) == Ok(64) by {
      assert Arith.Pow(8, 1) == 8;
    }
    assert Eval(Call(FacFn, Lit(2))) == Ok(2) by {
      assert Arith.RangeProduct(2, 2) == 2;
    }
    assert Eval(Bin(Sub, Bin(Raise, Lit(8), Lit(2)), Call(FacFn, Lit(2)))) == Ok(62);
  }

  /** 15 * (abs(8^2 - fac(2))) + 3^2 */
  function SumPart(): Ast
  {
    Bin(Add, Bin(Times, Lit(15), AbsGroup()), Bin(Raise, Lit(3), Lit(2)))
  }

  lemma SumPartPrinted()
    ensures Emit(SumPart(), 1)
      == [LParen, Num(15), Mul]
         + [LParen, Tokenizer.Abs, LParen, Num(8), Pow, Num(2), Minus, Fac, LParen, Num(2), RParen, RParen, RParen]
         + [Plus, Num(3), Pow, Num(2), RParen]
  {
    var A := Emit(AbsGroup(), 3);
    assert Emit(SumPart(), 1) == [LParen] + ([Num(15), Mul] + A + [Plus] + [Num(3), Pow, Num(2)]) + [RParen] by {
      assert Emit(Bin(Times, Lit(15), AbsGroup()), 0) == [Num(15), Mul] + A;
      assert Emit(Bin(Raise, Lit(3), Lit(2)), 1) == [Num(3), Pow, Num(2)];
    }
    RegroupSum(A);
    AbsGroupPrinted();
  }

  lemma RegroupSum(A: seq<Token>)
    ensures [LParen] + ([Num(15), Mul] + A + [Plus] + [Num(3), Pow, Num(2)]) + [RParen]
      == [LParen, Num(15), Mul] + A + [Plus, Num(3), Pow, Num(2), RParen]
  {
  }

  lemma SumPartValue()
    ensures Eval(SumPart()) == Ok(939)
  {
    assert Eval(Bin(Times, Lit(15), AbsGroup())) == Ok(930) by {
      AbsGroupValue();
    }
    assert Eval(Bin(Raise, Lit(3), Lit(2))) == Ok(9) by {
      assert Arith.Pow(3, 1) == 3;
    }
  }

  /** ((1 + 2) * (3 + 4) / (1 + 2)), a redundant pair around a quotient. */
  function QuotientGroup(): Ast
  {
    var three := Bin(Add, Lit(1), Lit(2));
    Group(Bin(Over, Bin(Times, three, Bin(Add, Lit(3), Lit(4))), three))
  }

  lemma QuotientGroupPrinted()
    ensures Emit(QuotientGroup(), 1)
      == [LParen] + [LParen, Num(1), Plus, Num(2), RParen] + [Mul] + [LParen, Num(3), Plus, Num(4), RParen]
         + [Div] + [LParen, Num(1), Plus, Num(2), RParen] + [RParen]
  {
    var three, seven := Bin(Add, Lit(1), Lit(2)), Bin(Add, Lit(3), Lit(4));
    var T, V := [LParen, Num(1), Plus, Num(2), RParen], [LParen, Num(3), Plus, Num(4), RParen];
    assert Emit(three, 2) == T && Emit(three, 3) == T by {
      assert Emit(three, 0) == [Num(1), Plus, Num(2)];
    }
    assert Emit(seven, 3) == V by {
      assert Emit(seven, 0) == [Num(3), Plus, Num(4)];
    }
    var product := Bin(Times, three, seven);
    assert Emit(product, 2) == T + [Mul] + V by {
      EmitBin(Times, three, seven);
    }
    assert Emit(Bin(Over, product, three), 0) == T + [Mul] + V + [Div] + T by {
      EmitBin(Over, product, three);
    }
    assert Emit(QuotientGroup(), 1) == [LParen] + (T + [Mul] + V + [Div] + T) + [RParen] by {
      EmitGroup(Bin(Over, product, three), 1);
    }
    RegroupQuotient(T, V);
  }

  lemma RegroupQuotient(T: seq<Token>, V: seq<Token>)
    ensures [LParen] + (T + [Mul] + V + [Div] + T) + [RParen] == [LParen] + T + [Mul] + V + [Div] + T + [RParen]
  {
  }

  lemma QuotientGroupValue()
    ensures Eval(QuotientGroup()) == Ok(7)
  {
    assert Arith.TruncDiv(21, 3) == 7;
  }

  lemma EmitGroup(a: Ast, L: nat)
    requires L <= 4
    ensures Emit(Group(a), L) == [LParen] + Emit(a, 0) + [RParen]
  {
  }

  /** The shape of (f + s - q) in parentheses. */
  lemma EmitDifferenceGroup(f: Ast, s: Ast, q: Ast)
    ensures Emit(Group(Bin(Sub, Bin(Add, f, s), q)), 0)
      == [LParen] + Emit(f, 0) + [Plus] + Emit(s, 1) + [Minus] + Emit(q, 1) + [RParen]
  {
    var sum := Bin(Add, f, s);
    var F, S, Q := Emit(f, 0), Emit(s, 1), Emit(q, 1);
    var inner := Emit(Bin(Sub, sum, q), 0);
    assert Emit(Group(Bin(Sub, sum, q)), 0) == [LParen] + inner + [RParen] by {
      EmitGroup(Bin(Sub, sum, q), 0);
    }
    assert inner == F + [Plus] + S + [Minus] + Q by {
      EmitBin(Sub, sum, q);
      EmitBin(Add, f, s);
    }
    Regroup(F, S, Q);
  }

  lemma Regroup(F: seq<Token>, S: seq<Token>, Q: seq<Token>)
    ensures [LParen] + (F + [Plus] + S + [Minus] + Q) + [RParen]
      == [LParen] + F + [Plus] + S + [Minus] + Q + [RParen]
  {
  }

  /** The shape of c * (d - (n + m)). */
  lemma EmitProductOfDifference(c: Ast, d: Ast, n: Ast, m: Ast)
    requires !c.Bin? && !d.Bin? && !n.Bin? && !m.Bin?
    ensures Emit(Bin(Times, c, Bin(Sub, d, Bin(Add, n, m))), 0)
      == Emit(c, 4) + [Mul, LParen] + Emit(d, 0) + [Minus, LParen] + Emit(n, 0) + [Plus]
         + Emit(m, 4) + [RParen, RParen]
  {
    var sum := Bin(Add, n, m);
    var diff := Bin(Sub, d, sum);
    EmitProductShape(c, diff);
    EmitDifferenceShape(d, n, m);
    EmitSumShape(n, m);
    Regroup2(Emit(c, 4), Emit(d, 0), Emit(n, 0), Emit(m, 4));
  }

  lemma EmitProductShape(c: Ast, x: Ast)
    requires !c.Bin?
    ensures Emit(Bin(Times, c, x), 0) == Emit(c, 4) + [Mul] + Emit(x, 3)
  {
    EmitDescends(Bin(Times, c, x), 0);
    EmitDescends(Bin(Times, c, x), 1);
    EmitBin(Times, c, x);
    EmitDescends(c, 2);
    EmitDescends(c, 3);
  }

  lemma EmitDifferenceShape(d: Ast, n: Ast, m: Ast)
    ensures Emit(Bin(Sub, d, Bin(Add, n, m)), 3)
      == [LParen] + (Emit(d, 0) + [Minus] + Emit(Bin(Add, n, m), 1)) + [RParen]
  {
    EmitBin(Sub, d, Bin(Add, n, m));
  }

  lemma EmitSumShape(n: Ast, m: Ast)
    requires !m.Bin?
    ensures Emit(Bin(Add, n, m), 1) == [LParen] + (Emit(n, 0) + [Plus] + Emit(m, 4)) + [RParen]
  {
    EmitBin(Add, n, m);
    EmitDescends(m, 1);
    EmitDescends(m, 2);
    EmitDescends(m, 3);
  }

  lemma Regroup2(C: seq<Token>, D: seq<Token>, N: seq<Token>, M: seq<Token>)
    ensures C + [Mul] + ([LParen] + (D + [Minus] + ([LParen] + (N + [Plus] + M) + [RParen])) + [RParen])
      == C + [Mul, LParen] + D + [Minus, LParen] + N + [Plus] + M + [RParen, RParen]
  {
  }

  /** `parse` of the printout of a tree with a value. */
  lemma ParseAs(e: Ast, ts: seq<Token>, v: int)
    requires Emit(e, 0) == ts && Eval(e) == Ok(v)
    ensures ParseTokens(ts) == Ok(v)
  {
    ParsePrintedAlone(e);
  }

  /** The whole of complex_expression around its two larger parts. */
  function Complex(s: Ast, q: Ast): Ast
  {
    Bin(Times, Call(SqrtFn, Lit(1)),
      Bin(Sub, Group(Bin(Sub, Bin(Add, Call(FacFn, Lit(3)), s), q)), Bin(Add, Neg(Lit(5)), Lit(2))))
  }

  lemma ComplexPrinted(s: Ast, q: Ast)
    ensures Emit(Complex(s, q), 0)
      == [Sqrt, LParen, Num(1), RParen, Mul, LParen] + [LParen, Fac, LParen, Num(3), RParen, Plus]
         + Emit(s, 1) + [Minus] + Emit(q, 1) + [RParen] + [Minus, LParen, Minus, Num(5), Plus, Num(2), RParen, RParen]
  {
    var fac3, sqrt1, five, two := Call(FacFn, Lit(3)), Call(SqrtFn, Lit(1)), Neg(Lit(5)), Lit(2);
    var W, F3, F, Tw := Emit(sqrt1, 4), Emit(fac3, 0), Emit(five, 0), Emit(two, 4);
    var S, Q := Emit(s, 1), Emit(q, 1);
    assert Emit(Complex(s, q), 0)
      == (W + [Mul, LParen]) + ([LParen] + F3 + [Plus]) + S + [Minus] + Q + [RParen]
         + ([Minus, LParen] + F + [Plus] + Tw + [RParen, RParen]) by {
      var d := Group(Bin(Sub, Bin(Add, fac3, s), q));
      assert Emit(d, 0) == [LParen] + F3 + [Plus] + S + [Minus] + Q + [RParen] by {
        EmitDifferenceGroup(fac3, s, q);
      }
      assert Emit(Complex(s, q), 0)
        == W + [Mul, LParen] + Emit(d, 0) + [Minus, LParen] + F + [Plus] + Tw + [RParen, RParen] by {
        EmitProductOfDifference(sqrt1, d, five, two);
      }
      Regroup3(W, F3, S, Q, F, Tw);
    }
    assert W + [Mul, LParen] == [Sqrt, LParen, Num(1), RParen, Mul, LParen] by {
      assert W == [Sqrt, LParen, Num(1), RParen];
    }
    assert [LParen] + F3 + [Plus] == [LParen, Fac, LParen, Num(3), RParen, Plus] by {
      assert F3 == [Fac, LParen, Num(3), RParen];
    }
    assert [Minus, LParen] + F + [Plus] + Tw + [RParen, RParen]
      == [Minus, LParen, Minus, Num(5), Plus, Num(2), RParen, RParen] by {
      assert F == [Minus, Num(5)];
      assert Tw == [Num(2)];
    }
  }

  /** Moves the parentheses of the printed complex_expression onto its segments. */
  lemma Regroup3(W: seq<Token>, F3: seq<Token>, S: seq<Token>, Q: seq<Token>, F: seq<Token>, Tw: seq<Token>)
    ensures W + [Mul, LParen] + ([LParen] + F3 + [Plus] + S + [Minus] + Q + [RParen])
              + [Minus, LParen] + F + [Plus] + Tw + [RParen, RParen]
         == (W + [Mul, LParen]) + ([LParen] + F3 + [Plus]) + S + [Minus] + Q + [RParen]
              + ([Minus, LParen] + F + [Plus] + Tw + [RParen, RParen])
  {
  }

  /** Splices the three segments of a printed sum into a longer token list. */
  lemma Splice(X: seq<Token>, A: seq<Token>, B: seq<Token>, C: seq<Token>, Q: seq<Token>, Y: seq<Token>)
    ensures X + (A + B + C) + [Minus] + Q + [RParen] + Y == X + A + B + C + [Minus] + Q + [RParen] + Y
  {
  }

  lemma ComplexValue(s: Ast, q: Ast)
    requires Eval(s) == Ok(939) && Eval(q) == Ok(7)
    ensures Eval(Complex(s, q)) == Ok(941)
  {
    var fac3, sqrt1 := Call(FacFn, Lit(3)), Call(SqrtFn, Lit(1));
    assert Eval(fac3) == Ok(6) by {
      assert Arith.RangeProduct(2, 3) == 6;
    }
    assert Eval(sqrt1) == Ok(1) by {
      assert Arith.SqrtToInt(1) == 1;
    }
    assert Eval(Bin(Add, fac3, s)) == Ok(945);
    assert Eval(Bin(Sub, Bin(Add, fac3, s), q)) == Ok(938);
    assert Eval(Group(Bin(Sub, Bin(Add, fac3, s), q))) == Ok(938);
    assert Eval(Bin(Add, Neg(Lit(5)), Lit(2))) == Ok(-3);
  }

  /** complex_expression: the tokens of the suite's longest input give 941. The
      token list is written in the segments of the expression. */
  lemma ComplexExpressionValue(ts: seq<Token>)
    requires ts ==
      [Sqrt, LParen, Num(1), RParen, Mul, LParen]                // sqrt(1) * (
      + [LParen, Fac, LParen, Num(3), RParen, Plus]              // (fac(3) +
      + [LParen, Num(15), Mul]                                   // (15 *
      + [LParen, Tokenizer.Abs, LParen, Num(8), Pow, Num(2), Minus, Fac, LParen, Num(2), RParen, RParen, RParen]
      + [Plus, Num(3), Pow, Num(2), RParen]                      // + 3^2)
      + [Minus]
      + ([LParen] + [LParen, Num(1), Plus, Num(2), RParen] + [Mul] + [LParen, Num(3), Plus, Num(4), RParen]
         + [Div] + [LParen, Num(1), Plus, Num(2), RParen] + [RParen])   // ((1 + 2) * (3 + 4) / (1 + 2))
      + [RParen]
      + [Minus, LParen, Minus, Num(5), Plus, Num(2), RParen, RParen]  // - (-5 + 2))
    ensures ParseTokens(ts) == Ok(941)
  {
    var s, q := SumPart(), QuotientGroup();
    assert Emit(Complex(s, q), 0) == ts by {
      SumPartPrinted();
      QuotientGroupPrinted();
      ComplexPrinted(s, q);
      Splice([Sqrt, LParen, Num(1), RParen, Mul, LParen] + [LParen, Fac, LParen, Num(3), RParen, Plus],
        [LParen, Num(15), Mul],
        [LParen, Tokenizer.Abs, LParen, Num(8), Pow, Num(2), Minus, Fac, LParen, Num(2), RParen, RParen, RParen],
        [Plus, Num(3), Pow, Num(2), RParen],
        Emit(q, 1),
        [Minus, LParen, Minus, Num(5), Plus, Num(2), RParen, RParen]);
    }
    assert Eval(Complex(s, q)) == Ok(941) by {
      SumPartValue();
      QuotientGroupValue();
      ComplexValue(s, q);
    }
    ParseAs(Complex(s, q), ts, 941);
  }

  // ---------------------------------------------------------------------
  // Grammar corner cases

  /** `^` is a loop: 2 ^ 3 ^ 2 is (2 ^ 3) ^ 2. */
  lemma PowerChain()
    ensures ParseTokens([Num(2), Pow, Num(3), Pow, Num(2)]) == Ok(64)
  {
    PowLeftAssociative(2, 3, 2);
    assert Arith.Pow(2, 6) == 64;
  }

  /** -2 ^ 2 is (-2) ^ 2. */
  lemma NegatedBase()
    ensures ParseTokens([Minus, Num(2), Pow, Num(2)]) == Ok(4)
  {
    NegBeforePow(2, 2);
    MinusTwoSquared();
  }

  lemma MinusTwoSquared()
    ensures Arith.Pow(-2, 2) == 4
  {
    assert Arith.Pow(-2, 1) == -2;
  }

  lemma DoubleNegation()
    ensures ParseTokens([Minus, Minus, Num(5)]) == Ok(5)
  {
    var e := Neg(Neg(Lit(5)));
    assert Emit(e, 0) == [Minus, Minus, Num(5)];
    ParsePrintedAlone(e);
  }

  /** What follows a complete expression is not read. */
  lemma TrailingTokens()
    ensures ParseTokens([Num(1), RParen, Num(2)]) == Ok(1)
  {
    var e := Lit(1);
    assert Emit(e, 0) + [RParen, Num(2)] == [Num(1), RParen, Num(2)];
    ParsePrinted(e, [RParen, Num(2)]);
  }

  lemma EmptyInput()
    ensures ParseTokens([]) == Err(Unexpected(Eof))
  {
    NoOperand([]);
  }

  lemma MissingRightParenthesis()
    ensures ParseTokens([LParen, Num(1), Plus, Num(2)]) == Err(ExpectedRParen(Eof))
  {
    var e := Bin(Add, Lit(1), Lit(2));
    assert [LParen] + Emit(e, 0) + [] == [LParen, Num(1), Plus, Num(2)];
    UnclosedParenthesis(e, []);
  }

  lemma MissingLeftParenthesis()
    ensures ParseTokens([Fac, Num(5)]) == Err(ExpectedLParen(Num(5)))
  {
    CallWithoutParenthesis(FacFn, [Num(5)]);
    assert [FnToken(FacFn)] + [Num(5)] == [Fac, Num(5)];
  }

  lemma DivideByZero()
    ensures ParseTokens([Num(5), Div, Num(0)]) == Err(DivisionByZero)
  {
    var e := Bin(Over, Lit(5), Lit(0));
    EmitDescends(e, 0);
    EmitDescends(e, 1);
    assert Emit(e, 2) == [Num(5), Div, Num(0)];
    ParsePrintedAlone(e);
  }
}
