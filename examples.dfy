/** Worked evaluations: what the evaluator makes of particular inputs. The
    well-formed ones are read back from the printer (`ParsePrint`); the
    others are followed token by token through the grammar's steps. */
module Examples {
  import opened Syntax
  import opened Grammar
  import opened Layout
  import opened Printer
  import opened Arithmetic

  function Two(): Expr { Num("2") }
  function Three(): Expr { Num("3") }

  /** `*` binds tighter than `+`. */
  lemma ProductInsideSum()
    ensures Parse("2+3*4") == Ok(Add(Two(), Mul(Three(), Num("4"))))
  {
    hide Factor, Term, TermTail, Expression, ExpressionTail;
    assert IsDigit("2"[0]) && IsDigit("3"[0]) && IsDigit("4"[0]);
    var e := Add(Two(), Mul(Three(), Num("4")));
    assert PrintExpression(e) == "2+3*4";
    ParsePrint(e);
  }

  /** A parenthesised sum is one factor of the product. */
  lemma ParenthesisedSum()
    ensures Parse("(2+3)*4") == Ok(Mul(Add(Two(), Three()), Num("4")))
  {
    hide Factor, Term, TermTail, Expression, ExpressionTail;
    assert IsDigit("2"[0]) && IsDigit("3"[0]) && IsDigit("4"[0]);
    var e := Mul(Add(Two(), Three()), Num("4"));
    assert PrintExpression(e) == "(2+3)*4";
    ParsePrint(e);
  }

  /** Quotients chain to the left. */
  lemma QuotientsFoldLeft()
    ensures Parse("8/4/2") == Ok(Div(Div(Num("8"), Num("4")), Two()))
  {
    hide Factor, Term, TermTail, Expression, ExpressionTail;
    assert IsDigit("8"[0]) && IsDigit("4"[0]) && IsDigit("2"[0]);
    var e := Div(Div(Num("8"), Num("4")), Two());
    assert PrintExpression(e) == "8/4/2";
    ParsePrint(e);
  }

  /** Differences chain to the left too, unless parenthesised. */
  lemma DifferenceOfDifference()
    ensures Parse("2-(3-4)") == Ok(Sub(Two(), Sub(Three(), Num("4"))))
  {
    hide Factor, Term, TermTail, Expression, ExpressionTail;
    assert IsDigit("2"[0]) && IsDigit("3"[0]) && IsDigit("4"[0]);
    var e := Sub(Two(), Sub(Three(), Num("4")));
    assert PrintExpression(e) == "2-(3-4)";
    ParsePrint(e);
  }

  /** A unary minus binds tighter than `*`. */
  lemma MinusBindsTightest()
    ensures Parse("-2*3") == Ok(Mul(Neg(Two()), Three()))
  {
    hide Factor, Term, TermTail, Expression, ExpressionTail;
    assert IsDigit("2"[0]) && IsDigit("3"[0]);
    var e := Mul(Neg(Two()), Three());
    assert PrintExpression(e) == "-2*3";
    ParsePrint(e);
  }

  /** Signs nest. */
  lemma DoubleMinus()
    ensures Parse("--5") == Ok(Neg(Neg(Num("5"))))
  {
    hide Factor, Term, TermTail, Expression, ExpressionTail;
    assert IsDigit("5"[0]);
    var e := Neg(Neg(Num("5")));
    assert PrintExpression(e) == "--5";
    ParsePrint(e);
  }

  /** A unary plus adds no node: the factor after it is the factor. */
  lemma PlusMinus()
    ensures Parse("+-3") == Ok(Neg(Three()))
  {
    hide Factor, Term, TermTail, Expression, ExpressionTail;
    var s := "+-3";
    assert IsDigit("3"[0]);
    assert At(s, 1, PrintFactor(Neg(Three())));
    FactorRoundTrip(Neg(Three()), s, 1);
    assert SkipWs(s, 0) == 0 && SkipWs(s, 3) == 3;
    FactorStep(s, 0, 0);
    TermFirst(s, 0, Neg(Three()), 3);
    ExpressionFirst(s, 0, Neg(Three()), 3);
    ExpressionDone(s, Neg(Three()), 3, 3);
  }

  /** A leading dot is part of the numeral. */
  lemma LeadingDot()
    ensures Parse(".5") == Ok(Num(".5"))
  {
    hide Factor, Term, TermTail, Expression, ExpressionTail;
    assert IsDigit(".5"[1]);
    var e := Num(".5");
    assert PrintExpression(e) == ".5";
    ParsePrint(e);
  }

  /** So is a trailing one. */
  lemma TrailingDot()
    ensures Parse("5.") == Ok(Num("5."))
  {
    hide Factor, Term, TermTail, Expression, ExpressionTail;
    assert IsDigit("5."[0]);
    var e := Num("5.");
    assert PrintExpression(e) == "5.";
    ParsePrint(e);
  }

  /** A second dot makes the whole run unconvertible. */
  lemma TwoDots()
    ensures Parse("1.2.3") == Err(BadNumber("1.2.3"))
  {
    hide Factor, Term, TermTail, Expression, ExpressionTail;
    var s := "1.2.3";
    assert !ValidNumber(s) by { assert s[1] == '.' && s[3] == '.'; }
    assert NumberChars(s) && At(s, 0, s) by { assert s[..|s|] == s; }
    assert SkipWs(s, 0) == 0;
    hide ValidNumber, NumberChars, At, SkipWs, IsWhitespace;
    FactorIsNumber(s, 0, 0);
    NumberToken(s, 0, s);
    FactorFailure(s, 0);
  }

  /** Nothing to read, or a character no factor starts with: an empty number. */
  lemma NoOperand()
    ensures Parse("") == Err(BadNumber(""))
    ensures Parse("a") == Err(BadNumber(""))
  {
    hide Factor, Term, TermTail, Expression, ExpressionTail;
    assert SkipWs("", 0) == 0 && SkipWs("a", 0) == 0;
    MissingOperand("", 0, 0);
    FactorFailure("", 0);
    MissingOperand("a", 0, 0);
    FactorFailure("a", 0);
  }

  /** Empty parentheses hold an empty number. */
  lemma EmptyParentheses()
    ensures Parse("()") == Err(BadNumber(""))
  {
    hide Factor, Term, TermTail, Expression, ExpressionTail;
    var s := "()";
    assert SkipWs(s, 0) == 0 && SkipWs(s, 1) == 1;
    MissingOperand(s, 1, 1);
    FactorFailure(s, 1);
    FactorStep(s, 0, 0);
    FactorFailure(s, 0);
  }

  /** A trailing operator lacks its right operand. */
  lemma TrailingOperator()
    ensures Parse("2+") == Err(BadNumber(""))
  {
    hide Factor, Term, TermTail, Expression, ExpressionTail;
    var s := "2+";
    assert IsDigit("2"[0]);
    FactorNumeral(s, 0, "2");
    TermFirst(s, 0, Two(), 1);
    assert SkipWs(s, 1) == 1 && SkipWs(s, 2) == 2;
    TermDone(s, Two(), 1, 1);
    ExpressionStart(s, 0);
    MissingOperand(s, 2, 2);
    FactorFailure(s, 2);
    ExpressionRound(s, Two(), 1, 1);
  }

  /** A `(` whose expression runs to the end of the input. */
  lemma UnclosedParenthesis()
    ensures Parse("(2+3") == Err(MissingParen)
  {
    hide Factor, Term, TermTail, Expression, ExpressionTail;
    var s := "(2+3";
    var sum := Add(Two(), Three());
    assert IsDigit("2"[0]) && IsDigit("3"[0]);
    assert At(s, 1, PrintExpression(sum));
    ExpressionPrefix(sum, s, 1);
    assert SkipWs(s, 0) == 0 && SkipWs(s, 4) == 4;
    ExpressionDone(s, sum, 4, 4);
    FactorStep(s, 0, 0);
    FactorFailure(s, 0);
  }

  /** A `(` whose expression stops before something other than `)`. */
  lemma JuxtaposedInParentheses()
    ensures Parse("(1 2)") == Err(MissingParen)
  {
    hide Factor, Term, TermTail, Expression, ExpressionTail;
    var s := "(1 2)";
    assert IsDigit("1"[0]);
    FactorNumeral(s, 1, "1");
    TermFirst(s, 1, Num("1"), 2);
    assert SkipWs(s, 0) == 0 && SkipWs(s, 2) == 3 && SkipWs(s, 3) == 3;
    TermDone(s, Num("1"), 2, 3);
    ExpressionStart(s, 1);
    ExpressionDone(s, Num("1"), 3, 3);
    FactorStep(s, 0, 0);
    FactorFailure(s, 0);
  }

  /** Whitespace ends a number but does not join two of them. */
  lemma JuxtaposedNumbers()
    ensures Parse("2 3") == Err(Unexpected('3'))
  {
    hide Factor, Term, TermTail, Expression, ExpressionTail;
    var s := "2 3";
    assert IsDigit("2"[0]);
    FactorNumeral(s, 0, "2");
    TermFirst(s, 0, Two(), 1);
    assert SkipWs(s, 1) == 2 && SkipWs(s, 2) == 2;
    TermDone(s, Two(), 1, 2);
    ExpressionStart(s, 0);
    ExpressionDone(s, Two(), 2, 2);
  }

  /** A `)` with no `(` is left over. */
  lemma StrayParenthesis()
    ensures Parse("2)") == Err(Unexpected(')'))
  {
    hide Factor, Term, TermTail, Expression, ExpressionTail;
    var s := "2)";
    assert IsDigit("2"[0]);
    FactorNumeral(s, 0, "2");
    TermFirst(s, 0, Two(), 1);
    assert SkipWs(s, 1) == 1;
    TermDone(s, Two(), 1, 1);
    ExpressionStart(s, 0);
    ExpressionDone(s, Two(), 1, 1);
  }

  /** Whitespace before and after every token is skipped. */
  lemma SpacesAround()
    ensures Parse(" 2 + 3 ") == Ok(Add(Two(), Three()))
  {
    hide Factor, Term, TermTail, Expression, ExpressionTail;
    var s := " 2 + 3 ";
    SpacedFirstOperand();
    SpacedSecondOperand();
    assert SkipWs(s, 3) == 3 && SkipWs(s, 7) == 7;
    ExpressionRound(s, Two(), 3, 3);
    ExpressionDone(s, Add(Two(), Three()), 7, 7);
  }

  lemma SpacedFirstOperand()
    ensures Expression(" 2 + 3 ", 0) == ExpressionTail(" 2 + 3 ", Two(), 3)
  {
    hide Factor, Term, TermTail, Expression, ExpressionTail;
    var s := " 2 + 3 ";
    assert IsDigit("2"[0]);
    SpaceSkipped(s, 0, Two());
    FactorNumeral(s, 1, "2");
    TermFirst(s, 1, Two(), 2);
    assert SkipWs(s, 2) == 3;
    TermDone(s, Two(), 2, 3);
    ExpressionStart(s, 1);
  }

  lemma SpacedSecondOperand()
    ensures Term(" 2 + 3 ", 4) == Ok(Parsed(Three(), 7))
  {
    hide Factor, Term, TermTail, Expression, ExpressionTail;
    var s := " 2 + 3 ";
    assert IsDigit("3"[0]);
    SpaceSkipped(s, 4, Three());
    FactorNumeral(s, 5, "3");
    TermFirst(s, 5, Three(), 6);
    assert SkipWs(s, 6) == 7;
    TermDone(s, Three(), 6, 7);
  }

  /** A decimal operand. */
  lemma DecimalProduct()
    ensures Parse("2.5*2") == Ok(Mul(Num("2.5"), Two()))
  {
    hide Factor, Term, TermTail, Expression, ExpressionTail;
    assert IsDigit("2.5"[0]) && IsDigit("2"[0]);
    var e := Mul(Num("2.5"), Two());
    assert PrintExpression(e) == "2.5*2";
    ParsePrint(e);
  }

  /** `2+3*4` is 14, not 20. */
  lemma ProductInsideSumValue()
    ensures Parse("2+3*4").Ok? && Value(Parse("2+3*4").value) == Some(14.0)
  {
    hide Parse, Factor, Term, TermTail, Expression, ExpressionTail;
    ProductInsideSum();
    assert TokenValue("2") == 2.0 && TokenValue("3") == 3.0 && TokenValue("4") == 4.0;
  }

  /** `8/4/2` is 1, not 4. */
  lemma QuotientsFoldLeftValue()
    ensures Parse("8/4/2").Ok? && Value(Parse("8/4/2").value) == Some(1.0)
  {
    hide Parse, Factor, Term, TermTail, Expression, ExpressionTail;
    QuotientsFoldLeft();
    assert TokenValue("8") == 8.0 && TokenValue("4") == 4.0 && TokenValue("2") == 2.0;
  }

  /** `--5` is 5 and `+-3` is -3. */
  lemma SignsValue()
    ensures Parse("--5").Ok? && Value(Parse("--5").value) == Some(5.0)
    ensures Parse("+-3").Ok? && Value(Parse("+-3").value) == Some(-3.0)
  {
    hide Parse, Factor, Term, TermTail, Expression, ExpressionTail;
    DoubleMinus();
    PlusMinus();
    assert TokenValue("5") == 5.0 && TokenValue("3") == 3.0;
  }

  /** `.5` is one half and `5.` is five. */
  lemma DotsValue()
    ensures Parse(".5").Ok? && Value(Parse(".5").value) == Some(0.5)
    ensures Parse("5.").Ok? && Value(Parse("5.").value) == Some(5.0)
  {
    hide Parse, Factor, Term, TermTail, Expression, ExpressionTail;
    LeadingDot();
    TrailingDot();
    LeadingDotValue('5');
    assert ['.', '5'] == ".5" && "5" + "." == "5.";
    TrailingDotValue("5");
    assert TokenValue("5") == 5.0;
  }

  /** `(2+3)*4` is 20. */
  lemma ParenthesisedSumValue()
    ensures Parse("(2+3)*4").Ok? && Value(Parse("(2+3)*4").value) == Some(20.0)
  {
    hide Parse, Factor, Term, TermTail, Expression, ExpressionTail;
    ParenthesisedSum();
    assert TokenValue("2") == 2.0 && TokenValue("3") == 3.0 && TokenValue("4") == 4.0;
  }

  /** ` 2 + 3 ` is 5. */
  lemma SpacesAroundValue()
    ensures Parse(" 2 + 3 ").Ok? && Value(Parse(" 2 + 3 ").value) == Some(5.0)
  {
    hide Parse, Factor, Term, TermTail, Expression, ExpressionTail;
    SpacesAround();
    assert TokenValue("2") == 2.0 && TokenValue("3") == 3.0;
  }

  /** `2.5*2` is 5. */
  lemma DecimalProductValue()
    ensures Parse("2.5*2").Ok? && Value(Parse("2.5*2").value) == Some(5.0)
  {
    hide Parse, Factor, Term, TermTail, Expression, ExpressionTail;
    DecimalProduct();
    assert "2.5"[..2] == "2." && "2."[..1] == "2" && "2"[..0] == [];
    assert Mantissa("2.5") == 25 && Decimals("2.5") == 1;
    assert TokenValue("2") == 2.0;
  }
}
