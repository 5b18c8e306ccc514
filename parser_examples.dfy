/** What `parse` makes of particular inputs, on a freshly constructed parser: numbers, the
    right-nested operator chains, parentheses, calls, and the inputs it rejects. Each input is
    followed token by token: one lemma per token read, one per operand or operator, and one
    for the whole input. */
module ParserExamples {
  import opened Wrappers
  import opened Expression
  import opened ParserSpec
  import opened ParserRules

  /** Between tokens on `input`: cursor, flags, last token and lookahead. */
  function At(input: string, pos: nat, exhausted: bool, finished: bool, current: Option<Token>, peeked: Token): PState
  {
    PState(input, pos, exhausted, finished, current, peeked)
  }

  const NameA := IdentifierToken("a")
  const NameB := IdentifierToken("b")
  const NameC := IdentifierToken("c")
  const NameF := IdentifierToken("f")
  const NameX := IdentifierToken("x")
  const NameY := IdentifierToken("y")
  const One := NumberToken("1", 1.0)
  const Two := NumberToken("2", 2.0)
  const PlusSign := CharToken(AddOperator, '+')
  const MinusSign := CharToken(SubOperator, '-')
  const TimesSign := CharToken(MulOperator, '*')
  const EqualsSign := CharToken(EqualSign, '=')
  const OpenSign := CharToken(OpenParen, '(')
  const CloseSign := CharToken(ClosedParen, ')')
  const CommaSign := CharToken(CommaType, ',')

  // ---------------------------------------------------------------------------
  // Numbers

  /** A lone number token, at the end of the input, is the whole expression. */
  lemma LoneNumber(input: string, text: string, value: real)
    requires |input| > 0
    requires NextToken(Reset(Fresh, input)) ==
             Ok((NumberToken(text, value), At(input, |input|, true, false, None, EofToken)))
    ensures Parse(Fresh, input) ==
            Ok((Number(value), At(input, |input|, true, true, Some(EofToken), EofToken)))
  {
    var number := NumberToken(text, value);
    var s1 := At(input, |input|, true, false, None, number);
    var s2 := At(input, |input|, true, true, Some(number), EofToken);
    NumberOperand(s1, text, value, EofToken, s2.(peeked := number));
    OperandIsWholeInput(Fresh, input, number, s1.(peeked := EofToken), Number(value), s2);
  }

  lemma IntegerLiteralToken()
    ensures NextToken(Reset(Fresh, "1034")) ==
            Ok((NumberToken("1034", 1034.0), At("1034", 4, true, false, None, EofToken)))
  {
    var input := "1034";
    assert input[0..4] == "1034";
    IntegerTokenRule(Reset(Fresh, input), 0, 4);
    assert DigitsValue("1034") == 1034 by {
      assert "1034"[..3] == "103" && "103"[..2] == "10" && "10"[..1] == "1" && "1"[..0] == "";
    }
  }

  lemma IntegerLiteral()
    ensures Parse(Fresh, "1034") == Ok((Number(1034.0), At("1034", 4, true, true, Some(EofToken), EofToken)))
  {
    IntegerLiteralToken();
    LoneNumber("1034", "1034", 1034.0);
  }

  lemma DecimalValueOfLiteral()
    ensures DecimalValue("1034", "45") == 1034.45
  {
    assert "1034"[..3] == "103" && "103"[..2] == "10" && "10"[..1] == "1" && "1"[..0] == "";
    assert "45"[..1] == "4" && "4"[..0] == "";
    assert Pow10(2) == 100;
  }

  lemma DecimalLiteralToken()
    ensures NextToken(Reset(Fresh, "1034.45")) ==
            Ok((NumberToken("1034.45", 1034.45), At("1034.45", 7, true, false, None, EofToken)))
  {
    DecimalTokenRule(Reset(Fresh, "1034.45"), 0, 4, 7);
    DecimalValueOfLiteral();
    DecimalLiteralParts();
  }

  lemma DecimalLiteralParts()
    ensures "1034.45"[0..4] == "1034" && "1034.45"[5..7] == "45" && "1034.45"[0..7] == "1034.45"
  {
  }

  lemma DecimalLiteral()
    ensures Parse(Fresh, "1034.45") ==
            Ok((Number(1034.45), At("1034.45", 7, true, true, Some(EofToken), EofToken)))
  {
    DecimalLiteralToken();
    LoneNumber("1034.45", "1034.45", 1034.45);
  }

  // ---------------------------------------------------------------------------
  // a - b - c

  const Chain := "a - b - c"

  lemma ChainTokenA()
    ensures NextToken(Reset(Fresh, Chain)) == Ok((NameA, At(Chain, 1, false, false, None, EofToken)))
  {
    assert Chain[0..1] == "a";
    IdentifierTokenRule(Reset(Fresh, Chain), 0, 1);
  }

  lemma ChainTokenMinus1()
    ensures NextToken(At(Chain, 1, false, false, Some(NameA), NameA)) ==
            Ok((MinusSign, At(Chain, 3, false, false, Some(NameA), NameA)))
  {
    CharTokenRule(At(Chain, 1, false, false, Some(NameA), NameA), 2);
  }

  lemma ChainTokenB()
    ensures NextToken(At(Chain, 3, false, false, Some(MinusSign), MinusSign)) ==
            Ok((NameB, At(Chain, 5, false, false, Some(MinusSign), MinusSign)))
  {
    assert Chain[4..5] == "b";
    IdentifierTokenRule(At(Chain, 3, false, false, Some(MinusSign), MinusSign), 4, 5);
  }

  lemma ChainTokenMinus2()
    ensures NextToken(At(Chain, 5, false, false, Some(NameB), NameB)) ==
            Ok((MinusSign, At(Chain, 7, false, false, Some(NameB), NameB)))
  {
    CharTokenRule(At(Chain, 5, false, false, Some(NameB), NameB), 6);
  }

  lemma ChainTokenC()
    ensures NextToken(At(Chain, 7, false, false, Some(MinusSign), MinusSign)) ==
            Ok((NameC, At(Chain, 9, true, false, Some(MinusSign), MinusSign)))
  {
    assert Chain[8..9] == "c";
    IdentifierTokenRule(At(Chain, 7, false, false, Some(MinusSign), MinusSign), 8, 9);
  }

  lemma ChainTokenEnd()
    ensures NextToken(At(Chain, 9, true, false, Some(NameC), NameC)) ==
            Ok((EofToken, At(Chain, 9, true, true, Some(NameC), NameC)))
  {
    EndOfInput(At(Chain, 9, true, false, Some(NameC), NameC));
  }

  /** `a`, up to the first '-'. */
  lemma ChainA()
    ensures ParseBinary(At(Chain, 1, false, false, None, NameA), 0) ==
            Ok((Identifier("a"), At(Chain, 3, false, false, Some(NameA), MinusSign)))
  {
    var s1, s2 := At(Chain, 1, false, false, None, NameA), At(Chain, 3, false, false, Some(NameA), MinusSign);
    ChainTokenMinus1();
    IdentifierOperand(s1, "a", MinusSign, s2.(peeked := NameA));
    ProductLevelEnds(s1, Identifier("a"), s2);
  }

  lemma ChainMinus1()
    ensures TestToken(At(Chain, 3, false, false, Some(NameA), MinusSign), SubOperator) ==
            Ok((true, At(Chain, 5, false, false, Some(MinusSign), NameB)))
  {
    ChainTokenB();
    TestTokenMatches(At(Chain, 3, false, false, Some(NameA), MinusSign), SubOperator, NameB,
                     At(Chain, 5, false, false, Some(MinusSign), MinusSign));
  }

  /** `b`, up to the second '-'. */
  lemma ChainB()
    ensures ParseBinary(At(Chain, 5, false, false, Some(MinusSign), NameB), 0) ==
            Ok((Identifier("b"), At(Chain, 7, false, false, Some(NameB), MinusSign)))
  {
    var s3, s4 := At(Chain, 5, false, false, Some(MinusSign), NameB), At(Chain, 7, false, false, Some(NameB), MinusSign);
    ChainTokenMinus2();
    IdentifierOperand(s3, "b", MinusSign, s4.(peeked := NameB));
    ProductLevelEnds(s3, Identifier("b"), s4);
  }

  lemma ChainMinus2()
    ensures TestToken(At(Chain, 7, false, false, Some(NameB), MinusSign), SubOperator) ==
            Ok((true, At(Chain, 9, true, false, Some(MinusSign), NameC)))
  {
    ChainTokenC();
    TestTokenMatches(At(Chain, 7, false, false, Some(NameB), MinusSign), SubOperator, NameC,
                     At(Chain, 9, true, false, Some(MinusSign), MinusSign));
  }

  /** `c`, to the end. */
  lemma ChainC()
    ensures ParseBinary(At(Chain, 9, true, false, Some(MinusSign), NameC), 1) ==
            Ok((Identifier("c"), At(Chain, 9, true, true, Some(NameC), EofToken)))
  {
    var s5, s6 := At(Chain, 9, true, false, Some(MinusSign), NameC), At(Chain, 9, true, true, Some(NameC), EofToken);
    ChainTokenEnd();
    IdentifierOperand(s5, "c", EofToken, s6.(peeked := NameC));
    ProductLevelEnds(s5, Identifier("c"), s6);
    SumLevelEnds(s5, Identifier("c"), s6);
  }

  /** `b - c`, to the end. */
  lemma ChainTail()
    ensures ParseBinary(At(Chain, 5, false, false, Some(MinusSign), NameB), 1) ==
            Ok((Subtraction(Identifier("b"), Identifier("c")), At(Chain, 9, true, true, Some(NameC), EofToken)))
  {
    ChainB();
    ChainMinus2();
    ChainC();
    SubtractionNestsRight(At(Chain, 5, false, false, Some(MinusSign), NameB), Identifier("b"),
                          At(Chain, 7, false, false, Some(NameB), MinusSign),
                          At(Chain, 9, true, false, Some(MinusSign), NameC), Identifier("c"),
                          At(Chain, 9, true, true, Some(NameC), EofToken));
  }

  /** `a - (b - c)` is the whole statement. */
  lemma ChainStatement()
    ensures ParseAssignment(At(Chain, 1, false, false, None, NameA)) ==
            Ok((Subtraction(Identifier("a"), Subtraction(Identifier("b"), Identifier("c"))),
                At(Chain, 9, true, true, Some(NameC), EofToken)))
  {
    var s1, s6 := At(Chain, 1, false, false, None, NameA), At(Chain, 9, true, true, Some(NameC), EofToken);
    var e := Subtraction(Identifier("a"), Subtraction(Identifier("b"), Identifier("c")));
    ChainA();
    ChainMinus1();
    ChainTail();
    SubtractionNestsRight(s1, Identifier("a"), At(Chain, 3, false, false, Some(NameA), MinusSign),
                          At(Chain, 5, false, false, Some(MinusSign), NameB),
                          Subtraction(Identifier("b"), Identifier("c")), s6);
    ExpressionStatement(s1, e, s6);
  }

  /** `a - b - c` subtracts `b - c` from `a`. */
  lemma SubtractionChainNestsRight()
    ensures Parse(Fresh, Chain) ==
            Ok((Subtraction(Identifier("a"), Subtraction(Identifier("b"), Identifier("c"))),
                At(Chain, 9, true, true, Some(EofToken), EofToken)))
  {
    ChainTokenA();
    ChainStatement();
    WholeInputAccepted(Fresh, Chain, NameA, At(Chain, 1, false, false, None, EofToken),
                       Subtraction(Identifier("a"), Subtraction(Identifier("b"), Identifier("c"))),
                       At(Chain, 9, true, true, Some(NameC), EofToken));
  }

  // ---------------------------------------------------------------------------
  // a * (1 + b)

  const Grouped := "a * (1 + b)"

  lemma GroupedTokenA()
    ensures NextToken(Reset(Fresh, Grouped)) == Ok((NameA, At(Grouped, 1, false, false, None, EofToken)))
  {
    assert Grouped[0..1] == "a";
    IdentifierTokenRule(Reset(Fresh, Grouped), 0, 1);
  }

  lemma GroupedTokenTimes()
    ensures NextToken(At(Grouped, 1, false, false, Some(NameA), NameA)) ==
            Ok((TimesSign, At(Grouped, 3, false, false, Some(NameA), NameA)))
  {
    CharTokenRule(At(Grouped, 1, false, false, Some(NameA), NameA), 2);
  }

  lemma GroupedTokenOpen()
    ensures NextToken(At(Grouped, 3, false, false, Some(TimesSign), TimesSign)) ==
            Ok((OpenSign, At(Grouped, 5, false, false, Some(TimesSign), TimesSign)))
  {
    CharTokenRule(At(Grouped, 3, false, false, Some(TimesSign), TimesSign), 4);
  }

  lemma GroupedTokenOne()
    ensures NextToken(At(Grouped, 5, false, false, Some(OpenSign), OpenSign)) ==
            Ok((One, At(Grouped, 6, false, false, Some(OpenSign), OpenSign)))
  {
    assert Grouped[5..6] == "1";
    assert DigitsValue("1") == 1 by { assert "1"[..0] == ""; }
    IntegerTokenRule(At(Grouped, 5, false, false, Some(OpenSign), OpenSign), 5, 6);
  }

  lemma GroupedTokenPlus()
    ensures NextToken(At(Grouped, 6, false, false, Some(One), One)) ==
            Ok((PlusSign, At(Grouped, 8, false, false, Some(One), One)))
  {
    CharTokenRule(At(Grouped, 6, false, false, Some(One), One), 7);
  }

  lemma GroupedTokenB()
    ensures NextToken(At(Grouped, 8, false, false, Some(PlusSign), PlusSign)) ==
            Ok((NameB, At(Grouped, 10, false, false, Some(PlusSign), PlusSign)))
  {
    assert Grouped[9..10] == "b";
    IdentifierTokenRule(At(Grouped, 8, false, false, Some(PlusSign), PlusSign), 9, 10);
  }

  lemma GroupedTokenClose()
    ensures NextToken(At(Grouped, 10, false, false, Some(NameB), NameB)) ==
            Ok((CloseSign, At(Grouped, 11, true, false, Some(NameB), NameB)))
  {
    CharTokenRule(At(Grouped, 10, false, false, Some(NameB), NameB), 10);
  }

  lemma GroupedTokenEnd()
    ensures NextToken(At(Grouped, 11, true, false, Some(CloseSign), CloseSign)) ==
            Ok((EofToken, At(Grouped, 11, true, true, Some(CloseSign), CloseSign)))
  {
    EndOfInput(At(Grouped, 11, true, false, Some(CloseSign), CloseSign));
  }

  /** `a`, up to the '*'. */
  lemma GroupedA()
    ensures ParseUnary(At(Grouped, 1, false, false, None, NameA)) ==
            Ok((Identifier("a"), At(Grouped, 3, false, false, Some(NameA), TimesSign)))
  {
    GroupedTokenTimes();
    IdentifierOperand(At(Grouped, 1, false, false, None, NameA), "a", TimesSign,
                      At(Grouped, 3, false, false, Some(NameA), NameA));
  }

  lemma GroupedTimes()
    ensures TestToken(At(Grouped, 3, false, false, Some(NameA), TimesSign), MulOperator) ==
            Ok((true, At(Grouped, 5, false, false, Some(TimesSign), OpenSign)))
  {
    GroupedTokenOpen();
    TestTokenMatches(At(Grouped, 3, false, false, Some(NameA), TimesSign), MulOperator, OpenSign,
                     At(Grouped, 5, false, false, Some(TimesSign), TimesSign));
  }

  lemma GroupedOpen()
    ensures TestToken(At(Grouped, 5, false, false, Some(TimesSign), OpenSign), OpenParen) ==
            Ok((true, At(Grouped, 6, false, false, Some(OpenSign), One)))
  {
    GroupedTokenOne();
    TestTokenMatches(At(Grouped, 5, false, false, Some(TimesSign), OpenSign), OpenParen, One,
                     At(Grouped, 6, false, false, Some(OpenSign), OpenSign));
  }

  /** `1`, up to the '+'. */
  lemma GroupedOne()
    ensures ParseBinary(At(Grouped, 6, false, false, Some(OpenSign), One), 0) ==
            Ok((Number(1.0), At(Grouped, 8, false, false, Some(One), PlusSign)))
  {
    var s4, s5 := At(Grouped, 6, false, false, Some(OpenSign), One), At(Grouped, 8, false, false, Some(One), PlusSign);
    GroupedTokenPlus();
    NumberOperand(s4, "1", 1.0, PlusSign, s5.(peeked := One));
    ProductLevelEnds(s4, Number(1.0), s5);
  }

  lemma GroupedPlus()
    ensures TestToken(At(Grouped, 8, false, false, Some(One), PlusSign), AddOperator) ==
            Ok((true, At(Grouped, 10, false, false, Some(PlusSign), NameB)))
  {
    GroupedTokenB();
    TestTokenMatches(At(Grouped, 8, false, false, Some(One), PlusSign), AddOperator, NameB,
                     At(Grouped, 10, false, false, Some(PlusSign), PlusSign));
  }

  /** `b`, up to the ')'. */
  lemma GroupedB()
    ensures ParseBinary(At(Grouped, 10, false, false, Some(PlusSign), NameB), 1) ==
            Ok((Identifier("b"), At(Grouped, 11, true, false, Some(NameB), CloseSign)))
  {
    var s6, s7 := At(Grouped, 10, false, false, Some(PlusSign), NameB), At(Grouped, 11, true, false, Some(NameB), CloseSign);
    GroupedTokenClose();
    IdentifierOperand(s6, "b", CloseSign, s7.(peeked := NameB));
    ProductLevelEnds(s6, Identifier("b"), s7);
    SumLevelEnds(s6, Identifier("b"), s7);
  }

  lemma GroupedClose()
    ensures ExpectToken(At(Grouped, 11, true, false, Some(NameB), CloseSign), ClosedParen) ==
            Ok(((), At(Grouped, 11, true, true, Some(CloseSign), EofToken)))
  {
    GroupedTokenEnd();
    TestTokenMatches(At(Grouped, 11, true, false, Some(NameB), CloseSign), ClosedParen, EofToken,
                     At(Grouped, 11, true, true, Some(CloseSign), CloseSign));
  }

  /** `1 + b`, inside the parentheses. */
  lemma GroupedSum()
    ensures ParseExpression(At(Grouped, 6, false, false, Some(OpenSign), One)) ==
            Ok((Sum([Number(1.0), Identifier("b")]), At(Grouped, 11, true, false, Some(NameB), CloseSign)))
  {
    GroupedOne();
    GroupedPlus();
    GroupedB();
    SumNestsRight(At(Grouped, 6, false, false, Some(OpenSign), One), Number(1.0),
                  At(Grouped, 8, false, false, Some(One), PlusSign),
                  At(Grouped, 10, false, false, Some(PlusSign), NameB), Identifier("b"),
                  At(Grouped, 11, true, false, Some(NameB), CloseSign));
  }

  /** `(1 + b)` is one operand. */
  lemma GroupedParenthesised()
    ensures ParseUnary(At(Grouped, 5, false, false, Some(TimesSign), OpenSign)) ==
            Ok((Sum([Number(1.0), Identifier("b")]), At(Grouped, 11, true, true, Some(CloseSign), EofToken)))
  {
    GroupedOpen();
    GroupedSum();
    GroupedClose();
    ParenthesisedOperand(At(Grouped, 5, false, false, Some(TimesSign), OpenSign),
                         At(Grouped, 6, false, false, Some(OpenSign), One), Sum([Number(1.0), Identifier("b")]),
                         At(Grouped, 11, true, false, Some(NameB), CloseSign),
                         At(Grouped, 11, true, true, Some(CloseSign), EofToken));
  }

  /** ... and so one factor. */
  lemma GroupedFactor()
    ensures ParseBinary(At(Grouped, 5, false, false, Some(TimesSign), OpenSign), 0) ==
            Ok((Sum([Number(1.0), Identifier("b")]), At(Grouped, 11, true, true, Some(CloseSign), EofToken)))
  {
    GroupedParenthesised();
    ProductLevelEnds(At(Grouped, 5, false, false, Some(TimesSign), OpenSign), Sum([Number(1.0), Identifier("b")]),
                     At(Grouped, 11, true, true, Some(CloseSign), EofToken));
  }

  lemma GroupedStatement()
    ensures ParseAssignment(At(Grouped, 1, false, false, None, NameA)) ==
            Ok((Product([Identifier("a"), Sum([Number(1.0), Identifier("b")])]),
                At(Grouped, 11, true, true, Some(CloseSign), EofToken)))
  {
    var s1, s8 := At(Grouped, 1, false, false, None, NameA), At(Grouped, 11, true, true, Some(CloseSign), EofToken);
    var sum := Sum([Number(1.0), Identifier("b")]);
    var product := Product([Identifier("a"), sum]);
    GroupedA();
    GroupedTimes();
    GroupedFactor();
    ProductNestsRight(s1, Identifier("a"), At(Grouped, 3, false, false, Some(NameA), TimesSign),
                      At(Grouped, 5, false, false, Some(TimesSign), OpenSign), sum, s8);
    SumLevelEnds(s1, product, s8);
    ExpressionStatement(s1, product, s8);
  }

  /** The parenthesised sum is the right factor, with no node for the parentheses. */
  lemma GroupedSumIsOneFactor()
    ensures Parse(Fresh, Grouped) ==
            Ok((Product([Identifier("a"), Sum([Number(1.0), Identifier("b")])]),
                At(Grouped, 11, true, true, Some(EofToken), EofToken)))
  {
    GroupedTokenA();
    GroupedStatement();
    WholeInputAccepted(Fresh, Grouped, NameA, At(Grouped, 1, false, false, None, EofToken),
                       Product([Identifier("a"), Sum([Number(1.0), Identifier("b")])]),
                       At(Grouped, 11, true, true, Some(CloseSign), EofToken));
  }

  // ---------------------------------------------------------------------------
  // a +

  const Dangling := "a +"

  lemma DanglingTokenA()
    ensures NextToken(Reset(Fresh, Dangling)) == Ok((NameA, At(Dangling, 1, false, false, None, EofToken)))
  {
    assert Dangling[0..1] == "a";
    IdentifierTokenRule(Reset(Fresh, Dangling), 0, 1);
  }

  lemma DanglingTokenPlus()
    ensures NextToken(At(Dangling, 1, false, false, Some(NameA), NameA)) ==
            Ok((PlusSign, At(Dangling, 3, true, false, Some(NameA), NameA)))
  {
    CharTokenRule(At(Dangling, 1, false, false, Some(NameA), NameA), 2);
  }

  lemma DanglingTokenEnd()
    ensures NextToken(At(Dangling, 3, true, false, Some(PlusSign), PlusSign)) ==
            Ok((EofToken, At(Dangling, 3, true, true, Some(PlusSign), PlusSign)))
  {
    EndOfInput(At(Dangling, 3, true, false, Some(PlusSign), PlusSign));
  }

  lemma DanglingA()
    ensures ParseBinary(At(Dangling, 1, false, false, None, NameA), 0) ==
            Ok((Identifier("a"), At(Dangling, 3, true, false, Some(NameA), PlusSign)))
  {
    var s1, s2 := At(Dangling, 1, false, false, None, NameA), At(Dangling, 3, true, false, Some(NameA), PlusSign);
    DanglingTokenPlus();
    IdentifierOperand(s1, "a", PlusSign, s2.(peeked := NameA));
    ProductLevelEnds(s1, Identifier("a"), s2);
  }

  lemma DanglingPlus()
    ensures TestToken(At(Dangling, 3, true, false, Some(NameA), PlusSign), AddOperator) ==
            Ok((true, At(Dangling, 3, true, true, Some(PlusSign), EofToken)))
  {
    DanglingTokenEnd();
    TestTokenMatches(At(Dangling, 3, true, false, Some(NameA), PlusSign), AddOperator, EofToken,
                     At(Dangling, 3, true, true, Some(PlusSign), PlusSign));
  }

  /** After the '+' there is no operand: the error quotes the '+'. */
  lemma DanglingRightOperand()
    ensures ParseBinary(At(Dangling, 3, true, true, Some(PlusSign), EofToken), 1) ==
            Err(Failure(UnexpectedToken(PlusSign), At(Dangling, 3, true, true, Some(PlusSign), EofToken)))
  {
    var s3 := At(Dangling, 3, true, true, Some(PlusSign), EofToken);
    MissingOperandRejected(s3);
    FirstOperandRejected(s3, Failure(UnexpectedToken(PlusSign), s3));
  }

  lemma DanglingStatement()
    ensures ParseAssignment(At(Dangling, 1, false, false, None, NameA)) ==
            Err(Failure(UnexpectedToken(PlusSign), At(Dangling, 3, true, true, Some(PlusSign), EofToken)))
  {
    var s1 := At(Dangling, 1, false, false, None, NameA);
    var f := Failure(UnexpectedToken(PlusSign), At(Dangling, 3, true, true, Some(PlusSign), EofToken));
    DanglingA();
    DanglingPlus();
    DanglingRightOperand();
    assert ParseBinary(s1, 1) == Err(f);
  }

  /** A dangling '+' is rejected; the message quotes the '+', the last token read. */
  lemma DanglingOperatorRejected()
    ensures Parse(Fresh, Dangling) ==
            Err(Failure(UnexpectedToken(PlusSign), At(Dangling, 3, true, true, Some(PlusSign), EofToken)))
  {
    DanglingTokenA();
    DanglingStatement();
    StatementRejected(Fresh, Dangling, NameA, At(Dangling, 1, false, false, None, EofToken),
                      Failure(UnexpectedToken(PlusSign), At(Dangling, 3, true, true, Some(PlusSign), EofToken)));
  }

  // ---------------------------------------------------------------------------
  // a = b = c

  const Assignments := "a = b = c"

  lemma AssignmentsTokenA()
    ensures NextToken(Reset(Fresh, Assignments)) == Ok((NameA, At(Assignments, 1, false, false, None, EofToken)))
  {
    assert Assignments[0..1] == "a";
    IdentifierTokenRule(Reset(Fresh, Assignments), 0, 1);
  }

  lemma AssignmentsTokenEquals1()
    ensures NextToken(At(Assignments, 1, false, false, Some(NameA), NameA)) ==
            Ok((EqualsSign, At(Assignments, 3, false, false, Some(NameA), NameA)))
  {
    CharTokenRule(At(Assignments, 1, false, false, Some(NameA), NameA), 2);
  }

  lemma AssignmentsTokenB()
    ensures NextToken(At(Assignments, 3, false, false, Some(EqualsSign), EqualsSign)) ==
            Ok((NameB, At(Assignments, 5, false, false, Some(EqualsSign), EqualsSign)))
  {
    assert Assignments[4..5] == "b";
    IdentifierTokenRule(At(Assignments, 3, false, false, Some(EqualsSign), EqualsSign), 4, 5);
  }

  lemma AssignmentsTokenEquals2()
    ensures NextToken(At(Assignments, 5, false, false, Some(NameB), NameB)) ==
            Ok((EqualsSign, At(Assignments, 7, false, false, Some(NameB), NameB)))
  {
    CharTokenRule(At(Assignments, 5, false, false, Some(NameB), NameB), 6);
  }

  /** `a`, up to the first '='. */
  lemma AssignmentsA()
    ensures ParseExpression(At(Assignments, 1, false, false, None, NameA)) ==
            Ok((Identifier("a"), At(Assignments, 3, false, false, Some(NameA), EqualsSign)))
  {
    var s1, s2 := At(Assignments, 1, false, false, None, NameA), At(Assignments, 3, false, false, Some(NameA), EqualsSign);
    AssignmentsTokenEquals1();
    IdentifierOperand(s1, "a", EqualsSign, s2.(peeked := NameA));
    ProductLevelEnds(s1, Identifier("a"), s2);
    SumLevelEnds(s1, Identifier("a"), s2);
  }

  lemma AssignmentsEquals()
    ensures TestToken(At(Assignments, 3, false, false, Some(NameA), EqualsSign), EqualSign) ==
            Ok((true, At(Assignments, 5, false, false, Some(EqualsSign), NameB)))
  {
    AssignmentsTokenB();
    TestTokenMatches(At(Assignments, 3, false, false, Some(NameA), EqualsSign), EqualSign, NameB,
                     At(Assignments, 5, false, false, Some(EqualsSign), EqualsSign));
  }

  /** `b`, up to the second '='. */
  lemma AssignmentsB()
    ensures ParseExpression(At(Assignments, 5, false, false, Some(EqualsSign), NameB)) ==
            Ok((Identifier("b"), At(Assignments, 7, false, false, Some(NameB), EqualsSign)))
  {
    var s3, s4 := At(Assignments, 5, false, false, Some(EqualsSign), NameB), At(Assignments, 7, false, false, Some(NameB), EqualsSign);
    AssignmentsTokenEquals2();
    IdentifierOperand(s3, "b", EqualsSign, s4.(peeked := NameB));
    ProductLevelEnds(s3, Identifier("b"), s4);
    SumLevelEnds(s3, Identifier("b"), s4);
  }

  /** `a = b`, stopping at the second '='. */
  lemma AssignmentsStatement()
    ensures ParseAssignment(At(Assignments, 1, false, false, None, NameA)) ==
            Ok((Assignment(Identifier("a"), Identifier("b")), At(Assignments, 7, false, false, Some(NameB), EqualsSign)))
  {
    AssignmentsA();
    AssignmentsEquals();
    AssignmentsB();
    AssignmentStatement(At(Assignments, 1, false, false, None, NameA), Identifier("a"),
                        At(Assignments, 3, false, false, Some(NameA), EqualsSign),
                        At(Assignments, 5, false, false, Some(EqualsSign), NameB), Identifier("b"),
                        At(Assignments, 7, false, false, Some(NameB), EqualsSign));
  }

  /** Assignments do not chain: after `a = b` the input must end. */
  lemma ChainedAssignmentRejected()
    ensures Parse(Fresh, Assignments) ==
            Err(Failure(Expected(EofType), At(Assignments, 7, false, false, Some(NameB), EqualsSign)))
  {
    AssignmentsTokenA();
    AssignmentsStatement();
    TrailingInputRejected(Fresh, Assignments, NameA, At(Assignments, 1, false, false, None, EofToken),
                          Assignment(Identifier("a"), Identifier("b")),
                          At(Assignments, 7, false, false, Some(NameB), EqualsSign));
  }

  // ---------------------------------------------------------------------------
  // 2 ^ 3

  const Power := "2 ^ 3"

  lemma PowerTokenTwo()
    ensures NextToken(Reset(Fresh, Power)) == Ok((Two, At(Power, 1, false, false, None, EofToken)))
  {
    assert Power[0..1] == "2";
    assert DigitsValue("2") == 2 by { assert "2"[..0] == ""; }
    IntegerTokenRule(Reset(Fresh, Power), 0, 1);
  }

  lemma PowerTokenCaret()
    ensures NextToken(At(Power, 1, false, false, Some(Two), Two)) ==
            Err(Failure(UnexpectedChar('^'), At(Power, 2, false, false, Some(Two), Two)))
  {
    UnexpectedCharRule(At(Power, 1, false, false, Some(Two), Two), 2);
  }

  lemma PowerOperand()
    ensures ParseUnary(At(Power, 1, false, false, None, Two)) ==
            Err(Failure(UnexpectedChar('^'), At(Power, 2, false, false, Some(Two), Two)))
  {
    var s1 := At(Power, 1, false, false, None, Two);
    var f := Failure(UnexpectedChar('^'), At(Power, 2, false, false, Some(Two), Two));
    PowerTokenCaret();
    assert TestToken(s1, NumberType) == Err(f);
    assert ParseAtom(s1) == Err(f);
  }

  /** There is no power operator: '^' is an unexpected character. */
  lemma CaretRejected()
    ensures Parse(Fresh, Power) == Err(Failure(UnexpectedChar('^'), At(Power, 2, false, false, Some(Two), Two)))
  {
    var f := Failure(UnexpectedChar('^'), At(Power, 2, false, false, Some(Two), Two));
    PowerTokenTwo();
    PowerOperand();
    FirstOperandRejected(At(Power, 1, false, false, None, Two), f);
    StatementRejected(Fresh, Power, Two, At(Power, 1, false, false, None, EofToken), f);
  }

  // ---------------------------------------------------------------------------
  // f()

  const EmptyCallInput := "f()"

  lemma EmptyCallTokenF()
    ensures NextToken(Reset(Fresh, EmptyCallInput)) == Ok((NameF, At(EmptyCallInput, 1, false, false, None, EofToken)))
  {
    assert EmptyCallInput[0..1] == "f";
    IdentifierTokenRule(Reset(Fresh, EmptyCallInput), 0, 1);
  }

  lemma EmptyCallTokenOpen()
    ensures NextToken(At(EmptyCallInput, 1, false, false, Some(NameF), NameF)) ==
            Ok((OpenSign, At(EmptyCallInput, 2, false, false, Some(NameF), NameF)))
  {
    CharTokenRule(At(EmptyCallInput, 1, false, false, Some(NameF), NameF), 1);
  }

  lemma EmptyCallTokenClose()
    ensures NextToken(At(EmptyCallInput, 2, false, false, Some(OpenSign), OpenSign)) ==
            Ok((CloseSign, At(EmptyCallInput, 3, true, false, Some(OpenSign), OpenSign)))
  {
    CharTokenRule(At(EmptyCallInput, 2, false, false, Some(OpenSign), OpenSign), 2);
  }

  lemma EmptyCallTokenEnd()
    ensures NextToken(At(EmptyCallInput, 3, true, false, Some(CloseSign), CloseSign)) ==
            Ok((EofToken, At(EmptyCallInput, 3, true, true, Some(CloseSign), CloseSign)))
  {
    EndOfInput(At(EmptyCallInput, 3, true, false, Some(CloseSign), CloseSign));
  }

  lemma EmptyCallOperandOf()
    ensures ParseUnary(At(EmptyCallInput, 1, false, false, None, NameF)) ==
            Ok((FunctionCall("f", []), At(EmptyCallInput, 3, true, true, Some(CloseSign), EofToken)))
  {
    EmptyCallTokenOpen();
    EmptyCallTokenClose();
    EmptyCallTokenEnd();
    EmptyCallOperand(At(EmptyCallInput, 1, false, false, None, NameF), "f",
                     OpenSign, At(EmptyCallInput, 2, false, false, Some(NameF), NameF),
                     CloseSign, At(EmptyCallInput, 3, true, false, Some(OpenSign), OpenSign),
                     EofToken, At(EmptyCallInput, 3, true, true, Some(CloseSign), CloseSign));
  }

  /** `f()` is a call with no arguments. */
  lemma EmptyCall()
    ensures Parse(Fresh, EmptyCallInput) ==
            Ok((FunctionCall("f", []), At(EmptyCallInput, 3, true, true, Some(EofToken), EofToken)))
  {
    EmptyCallTokenF();
    EmptyCallOperandOf();
    OperandIsWholeInput(Fresh, EmptyCallInput, NameF, At(EmptyCallInput, 1, false, false, None, EofToken),
                        FunctionCall("f", []), At(EmptyCallInput, 3, true, true, Some(CloseSign), EofToken));
  }

  // ---------------------------------------------------------------------------
  // f(1

  const Unclosed := "f(1"

  lemma UnclosedTokenF()
    ensures NextToken(Reset(Fresh, Unclosed)) == Ok((NameF, At(Unclosed, 1, false, false, None, EofToken)))
  {
    assert Unclosed[0..1] == "f";
    IdentifierTokenRule(Reset(Fresh, Unclosed), 0, 1);
  }

  lemma UnclosedTokenOpen()
    ensures NextToken(At(Unclosed, 1, false, false, Some(NameF), NameF)) ==
            Ok((OpenSign, At(Unclosed, 2, false, false, Some(NameF), NameF)))
  {
    CharTokenRule(At(Unclosed, 1, false, false, Some(NameF), NameF), 1);
  }

  lemma UnclosedTokenOne()
    ensures NextToken(At(Unclosed, 2, false, false, Some(OpenSign), OpenSign)) ==
            Ok((One, At(Unclosed, 3, true, false, Some(OpenSign), OpenSign)))
  {
    assert Unclosed[2..3] == "1";
    assert DigitsValue("1") == 1 by { assert "1"[..0] == ""; }
    IntegerTokenRule(At(Unclosed, 2, false, false, Some(OpenSign), OpenSign), 2, 3);
  }

  lemma UnclosedTokenEnd()
    ensures NextToken(At(Unclosed, 3, true, false, Some(One), One)) ==
            Ok((EofToken, At(Unclosed, 3, true, true, Some(One), One)))
  {
    EndOfInput(At(Unclosed, 3, true, false, Some(One), One));
  }

  lemma UnclosedArgument()
    ensures ParseExpression(At(Unclosed, 3, true, false, Some(OpenSign), One)) ==
            Ok((Number(1.0), At(Unclosed, 3, true, true, Some(One), EofToken)))
  {
    var u, t3 := At(Unclosed, 3, true, false, Some(OpenSign), One), At(Unclosed, 3, true, true, Some(One), EofToken);
    UnclosedTokenEnd();
    NumberOperand(u, "1", 1.0, EofToken, t3.(peeked := One));
    ProductLevelEnds(u, Number(1.0), t3);
    SumLevelEnds(u, Number(1.0), t3);
  }

  lemma UnclosedOperand()
    ensures ParseUnary(At(Unclosed, 1, false, false, None, NameF)) ==
            Err(Failure(Expected(ClosedParen), At(Unclosed, 3, true, true, Some(One), EofToken)))
  {
    UnclosedTokenOpen();
    UnclosedTokenOne();
    UnclosedArgument();
    UnclosedCallRejected(At(Unclosed, 1, false, false, None, NameF), "f",
                         OpenSign, At(Unclosed, 2, false, false, Some(NameF), NameF),
                         One, At(Unclosed, 3, true, false, Some(OpenSign), OpenSign),
                         Number(1.0), At(Unclosed, 3, true, true, Some(One), EofToken));
  }

  /** `f(1` lacks its ')'. */
  lemma UnclosedCall()
    ensures Parse(Fresh, Unclosed) ==
            Err(Failure(Expected(ClosedParen), At(Unclosed, 3, true, true, Some(One), EofToken)))
  {
    var f := Failure(Expected(ClosedParen), At(Unclosed, 3, true, true, Some(One), EofToken));
    UnclosedTokenF();
    UnclosedOperand();
    FirstOperandRejected(At(Unclosed, 1, false, false, None, NameF), f);
    StatementRejected(Fresh, Unclosed, NameF, At(Unclosed, 1, false, false, None, EofToken), f);
  }

  // ---------------------------------------------------------------------------
  // f(x, y)

  const TwoArguments := "f(x, y)"

  lemma TwoArgumentsTokenF()
    ensures NextToken(Reset(Fresh, TwoArguments)) == Ok((NameF, At(TwoArguments, 1, false, false, None, EofToken)))
  {
    assert TwoArguments[0..1] == "f";
    IdentifierTokenRule(Reset(Fresh, TwoArguments), 0, 1);
  }

  lemma TwoArgumentsTokenOpen()
    ensures NextToken(At(TwoArguments, 1, false, false, Some(NameF), NameF)) ==
            Ok((OpenSign, At(TwoArguments, 2, false, false, Some(NameF), NameF)))
  {
    CharTokenRule(At(TwoArguments, 1, false, false, Some(NameF), NameF), 1);
  }

  lemma TwoArgumentsTokenX()
    ensures NextToken(At(TwoArguments, 2, false, false, Some(OpenSign), OpenSign)) ==
            Ok((NameX, At(TwoArguments, 3, false, false, Some(OpenSign), OpenSign)))
  {
    assert TwoArguments[2..3] == "x";
    IdentifierTokenRule(At(TwoArguments, 2, false, false, Some(OpenSign), OpenSign), 2, 3);
  }

  lemma TwoArgumentsTokenComma()
    ensures NextToken(At(TwoArguments, 3, false, false, Some(NameX), NameX)) ==
            Ok((CommaSign, At(TwoArguments, 4, false, false, Some(NameX), NameX)))
  {
    CharTokenRule(At(TwoArguments, 3, false, false, Some(NameX), NameX), 3);
  }

  lemma TwoArgumentsTokenY()
    ensures NextToken(At(TwoArguments, 4, false, false, Some(CommaSign), CommaSign)) ==
            Ok((NameY, At(TwoArguments, 6, false, false, Some(CommaSign), CommaSign)))
  {
    assert TwoArguments[5..6] == "y";
    IdentifierTokenRule(At(TwoArguments, 4, false, false, Some(CommaSign), CommaSign), 5, 6);
  }

  lemma TwoArgumentsTokenClose()
    ensures NextToken(At(TwoArguments, 6, false, false, Some(NameY), NameY)) ==
            Ok((CloseSign, At(TwoArguments, 7, true, false, Some(NameY), NameY)))
  {
    CharTokenRule(At(TwoArguments, 6, false, false, Some(NameY), NameY), 6);
  }

  lemma TwoArgumentsTokenEnd()
    ensures NextToken(At(TwoArguments, 7, true, false, Some(CloseSign), CloseSign)) ==
            Ok((EofToken, At(TwoArguments, 7, true, true, Some(CloseSign), CloseSign)))
  {
    EndOfInput(At(TwoArguments, 7, true, false, Some(CloseSign), CloseSign));
  }

  /** `f`, up to the '('. */
  lemma TwoArgumentsName()
    ensures ParseAtom(At(TwoArguments, 1, false, false, None, NameF)) ==
            Ok((Identifier("f"), At(TwoArguments, 2, false, false, Some(NameF), OpenSign)))
  {
    var s1 := At(TwoArguments, 1, false, false, None, NameF);
    TwoArgumentsTokenOpen();
    TestTokenMatches(s1, IdentifierType, OpenSign, At(TwoArguments, 2, false, false, Some(NameF), NameF));
  }

  lemma TwoArgumentsOpen()
    ensures TestToken(At(TwoArguments, 2, false, false, Some(NameF), OpenSign), OpenParen) ==
            Ok((true, At(TwoArguments, 3, false, false, Some(OpenSign), NameX)))
  {
    TwoArgumentsTokenX();
    TestTokenMatches(At(TwoArguments, 2, false, false, Some(NameF), OpenSign), OpenParen, NameX,
                     At(TwoArguments, 3, false, false, Some(OpenSign), OpenSign));
  }

  /** `x`, up to the comma. */
  lemma TwoArgumentsX()
    ensures ParseExpression(At(TwoArguments, 3, false, false, Some(OpenSign), NameX)) ==
            Ok((Identifier("x"), At(TwoArguments, 4, false, false, Some(NameX), CommaSign)))
  {
    var s3, s4 := At(TwoArguments, 3, false, false, Some(OpenSign), NameX), At(TwoArguments, 4, false, false, Some(NameX), CommaSign);
    TwoArgumentsTokenComma();
    IdentifierOperand(s3, "x", CommaSign, s4.(peeked := NameX));
    ProductLevelEnds(s3, Identifier("x"), s4);
    SumLevelEnds(s3, Identifier("x"), s4);
  }

  lemma TwoArgumentsComma()
    ensures TestToken(At(TwoArguments, 4, false, false, Some(NameX), CommaSign), CommaType) ==
            Ok((true, At(TwoArguments, 6, false, false, Some(CommaSign), NameY)))
  {
    TwoArgumentsTokenY();
    TestTokenMatches(At(TwoArguments, 4, false, false, Some(NameX), CommaSign), CommaType, NameY,
                     At(TwoArguments, 6, false, false, Some(CommaSign), CommaSign));
  }

  /** `y`, up to the ')'. */
  lemma TwoArgumentsY()
    ensures ParseExpression(At(TwoArguments, 6, false, false, Some(CommaSign), NameY)) ==
            Ok((Identifier("y"), At(TwoArguments, 7, true, false, Some(NameY), CloseSign)))
  {
    var s5, s6 := At(TwoArguments, 6, false, false, Some(CommaSign), NameY), At(TwoArguments, 7, true, false, Some(NameY), CloseSign);
    TwoArgumentsTokenClose();
    IdentifierOperand(s5, "y", CloseSign, s6.(peeked := NameY));
    ProductLevelEnds(s5, Identifier("y"), s6);
    SumLevelEnds(s5, Identifier("y"), s6);
  }

  lemma TwoArgumentsClose()
    ensures ExpectToken(At(TwoArguments, 7, true, false, Some(NameY), CloseSign), ClosedParen) ==
            Ok(((), At(TwoArguments, 7, true, true, Some(CloseSign), EofToken)))
  {
    TwoArgumentsTokenEnd();
    TestTokenMatches(At(TwoArguments, 7, true, false, Some(NameY), CloseSign), ClosedParen, EofToken,
                     At(TwoArguments, 7, true, true, Some(CloseSign), CloseSign));
  }

  /** The argument loop: one comma, then a ')' that ends the loop. */
  lemma TwoArgumentsLoop()
    ensures ParseArguments(At(TwoArguments, 4, false, false, Some(NameX), CommaSign), [Identifier("x")]) ==
            Ok(([Identifier("x"), Identifier("y")], At(TwoArguments, 7, true, false, Some(NameY), CloseSign)))
  {
    var s4 := At(TwoArguments, 4, false, false, Some(NameX), CommaSign);
    var s5 := At(TwoArguments, 6, false, false, Some(CommaSign), NameY);
    var s6 := At(TwoArguments, 7, true, false, Some(NameY), CloseSign);
    var x, y := Identifier("x"), Identifier("y");
    calc {
      ParseArguments(s4, [x]);
    == { TwoArgumentsComma(); TwoArgumentsY(); ArgumentsContinue(s4, [x], s5, y, s6); }
      ParseArguments(s6, [x] + [y]);
    == { ArgumentsEnd(s6, [x] + [y]); }
      Ok(([x] + [y], s6));
    == { assert [x] + [y] == [x, y]; }
      Ok(([x, y], s6));
    }
  }

  lemma TwoArgumentsCall()
    ensures ParseUnary(At(TwoArguments, 1, false, false, None, NameF)) ==
            Ok((FunctionCall("f", [Identifier("x"), Identifier("y")]), At(TwoArguments, 7, true, true, Some(CloseSign), EofToken)))
  {
    TwoArgumentsName();
    TwoArgumentsOpen();
    TwoArgumentsX();
    TwoArgumentsLoop();
    TwoArgumentsClose();
    CallOperand(At(TwoArguments, 1, false, false, None, NameF), "f",
                At(TwoArguments, 2, false, false, Some(NameF), OpenSign),
                At(TwoArguments, 3, false, false, Some(OpenSign), NameX), Identifier("x"),
                At(TwoArguments, 4, false, false, Some(NameX), CommaSign),
                [Identifier("x"), Identifier("y")],
                At(TwoArguments, 7, true, false, Some(NameY), CloseSign),
                At(TwoArguments, 7, true, true, Some(CloseSign), EofToken));
  }

  /** Arguments are separated by commas, although the comma's token type is undefined: the
      argument loop tests for that same undefined type. */
  lemma CallWithTwoArguments()
    ensures Parse(Fresh, TwoArguments) ==
            Ok((FunctionCall("f", [Identifier("x"), Identifier("y")]), At(TwoArguments, 7, true, true, Some(EofToken), EofToken)))
  {
    TwoArgumentsTokenF();
    TwoArgumentsCall();
    OperandIsWholeInput(Fresh, TwoArguments, NameF, At(TwoArguments, 1, false, false, None, EofToken),
                        FunctionCall("f", [Identifier("x"), Identifier("y")]),
                        At(TwoArguments, 7, true, true, Some(CloseSign), EofToken));
  }

  // ---------------------------------------------------------------------------
  // --a

  const Negated := "--a"

  lemma NegatedTokenMinus1()
    ensures NextToken(Reset(Fresh, Negated)) == Ok((MinusSign, At(Negated, 1, false, false, None, EofToken)))
  {
    CharTokenRule(Reset(Fresh, Negated), 0);
  }

  lemma NegatedTokenMinus2()
    ensures NextToken(At(Negated, 1, false, false, Some(MinusSign), MinusSign)) ==
            Ok((MinusSign, At(Negated, 2, false, false, Some(MinusSign), MinusSign)))
  {
    CharTokenRule(At(Negated, 1, false, false, Some(MinusSign), MinusSign), 1);
  }

  lemma NegatedTokenA()
    ensures NextToken(At(Negated, 2, false, false, Some(MinusSign), MinusSign)) ==
            Ok((NameA, At(Negated, 3, true, false, Some(MinusSign), MinusSign)))
  {
    assert Negated[2..3] == "a";
    IdentifierTokenRule(At(Negated, 2, false, false, Some(MinusSign), MinusSign), 2, 3);
  }

  lemma NegatedTokenEnd()
    ensures NextToken(At(Negated, 3, true, false, Some(NameA), NameA)) ==
            Ok((EofToken, At(Negated, 3, true, true, Some(NameA), NameA)))
  {
    EndOfInput(At(Negated, 3, true, false, Some(NameA), NameA));
  }

  lemma NegatedMinus1()
    ensures TestToken(At(Negated, 1, false, false, None, MinusSign), SubOperator) ==
            Ok((true, At(Negated, 2, false, false, Some(MinusSign), MinusSign)))
  {
    NegatedTokenMinus2();
    TestTokenMatches(At(Negated, 1, false, false, None, MinusSign), SubOperator, MinusSign,
                     At(Negated, 2, false, false, Some(MinusSign), MinusSign));
  }

  lemma NegatedMinus2()
    ensures TestToken(At(Negated, 2, false, false, Some(MinusSign), MinusSign), SubOperator) ==
            Ok((true, At(Negated, 3, true, false, Some(MinusSign), NameA)))
  {
    NegatedTokenA();
    TestTokenMatches(At(Negated, 2, false, false, Some(MinusSign), MinusSign), SubOperator, NameA,
                     At(Negated, 3, true, false, Some(MinusSign), MinusSign));
  }

  lemma NegatedA()
    ensures ParseUnary(At(Negated, 3, true, false, Some(MinusSign), NameA)) ==
            Ok((Identifier("a"), At(Negated, 3, true, true, Some(NameA), EofToken)))
  {
    NegatedTokenEnd();
    IdentifierOperand(At(Negated, 3, true, false, Some(MinusSign), NameA), "a", EofToken,
                      At(Negated, 3, true, true, Some(NameA), NameA));
  }

  lemma NegatedTwice()
    ensures ParseUnary(At(Negated, 1, false, false, None, MinusSign)) ==
            Ok((Product([Number(-1.0), Product([Number(-1.0), Identifier("a")])]),
                At(Negated, 3, true, true, Some(NameA), EofToken)))
  {
    var s1, s2 := At(Negated, 1, false, false, None, MinusSign), At(Negated, 2, false, false, Some(MinusSign), MinusSign);
    var s3, s4 := At(Negated, 3, true, false, Some(MinusSign), NameA), At(Negated, 3, true, true, Some(NameA), EofToken);
    NegatedMinus1();
    NegatedMinus2();
    NegatedA();
    NegatedOperand(s2, s3, Identifier("a"), s4);
    NegatedOperand(s1, s2, Product([Number(-1.0), Identifier("a")]), s4);
  }

  /** Unary minus repeats: `--a` is -1 * (-1 * a). */
  lemma DoubleNegation()
    ensures Parse(Fresh, Negated) ==
            Ok((Product([Number(-1.0), Product([Number(-1.0), Identifier("a")])]),
                At(Negated, 3, true, true, Some(EofToken), EofToken)))
  {
    NegatedTokenMinus1();
    NegatedTwice();
    OperandIsWholeInput(Fresh, Negated, MinusSign, At(Negated, 1, false, false, None, EofToken),
                        Product([Number(-1.0), Product([Number(-1.0), Identifier("a")])]),
                        At(Negated, 3, true, true, Some(NameA), EofToken));
  }
}
