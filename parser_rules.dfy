/** What the lexer and the parser of src/math/parser.js accept, stated on the specification
    functions one rule at a time: which token a run of characters becomes, how operands and
    operators combine, and when a whole input is accepted. */
module ParserRules {
  import opened Wrappers
  import opened Expression
  import opened ParserSpec

  // ---------------------------------------------------------------------------
  // Tokens

  /** `readWhile` stops exactly at the first character that fails the condition. */
  lemma {:induction false} ReadWhileUpTo(s: PState, condition: char -> bool, end: nat)
    requires LexerState(s) && s.pos <= end <= |s.input|
    requires forall i :: s.pos <= i < end ==> condition(s.input[i])
    requires end == |s.input| || !condition(s.input[end])
    ensures ReadWhile(s, condition) == (s.input[s.pos..end], s.(pos := end, exhausted := end == |s.input|))
    decreases end - s.pos
  {
    if s.pos < end {
      ReadWhileUpTo(ParserSpec.Advance(s), condition, end);
    }
  }

  /** The whitespace loop stops exactly at the first character that is not a space. */
  lemma {:induction false} SkipSpacesUpTo(s: PState, end: nat)
    requires LexerState(s) && s.pos <= end <= |s.input|
    requires forall i :: s.pos <= i < end ==> s.input[i] == ' '
    requires end == |s.input| || s.input[end] != ' '
    ensures SkipSpaces(s) == s.(pos := end, exhausted := end == |s.input|)
    decreases end - s.pos
  {
    if s.pos < end {
      SkipSpacesUpTo(ParserSpec.Advance(s), end);
    }
  }

  /** Spaces to the end of the input give EOF and mark the parser finished. */
  lemma EndOfInput(s: PState)
    requires LexerState(s)
    requires forall i :: s.pos <= i < |s.input| ==> s.input[i] == ' '
    ensures NextToken(s) == Ok((EofToken, s.(pos := |s.input|, exhausted := true, finished := true)))
  {
    SkipSpacesUpTo(s, |s.input|);
  }

  /** A run of letters after optional spaces is one identifier token. */
  lemma IdentifierTokenRule(s: PState, start: nat, end: nat)
    requires LexerState(s) && s.pos <= start < end <= |s.input|
    requires forall i :: s.pos <= i < start ==> s.input[i] == ' '
    requires forall i :: start <= i < end ==> IsLetter(s.input[i])
    requires end == |s.input| || !IsLetter(s.input[end])
    ensures NextToken(s) ==
            Ok((IdentifierToken(s.input[start..end]), s.(pos := end, exhausted := end == |s.input|)))
  {
    SkipSpacesUpTo(s, start);
    ReadWhileUpTo(s.(pos := start, exhausted := false), IsLetter, end);
  }

  /** A run of digits not followed by '.' is one number token with the run's value. */
  lemma IntegerTokenRule(s: PState, start: nat, end: nat)
    requires LexerState(s) && s.pos <= start < end <= |s.input|
    requires forall i :: s.pos <= i < start ==> s.input[i] == ' '
    requires forall i :: start <= i < end ==> IsDigit(s.input[i])
    requires end == |s.input| || (!IsDigit(s.input[end]) && s.input[end] != '.')
    ensures NextToken(s) ==
            Ok((NumberToken(s.input[start..end], DigitsValue(s.input[start..end]) as real),
                s.(pos := end, exhausted := end == |s.input|)))
  {
    SkipSpacesUpTo(s, start);
    ReadWhileUpTo(s.(pos := start, exhausted := false), IsDigit, end);
  }

  /** `parseNumber` on digits, '.', and more digits reads all three. */
  lemma DecimalNumber(s: PState, dot: nat, end: nat)
    requires LexerState(s) && s.pos < dot && dot + 1 < end <= |s.input|
    requires forall i :: s.pos <= i < dot ==> IsDigit(s.input[i])
    requires s.input[dot] == '.'
    requires forall i :: dot < i < end ==> IsDigit(s.input[i])
    requires end == |s.input| || !IsDigit(s.input[end])
    ensures ParseNumber(s) ==
            ((s.input[s.pos..end], DecimalValue(s.input[s.pos..dot], s.input[dot + 1..end])),
             s.(pos := end, exhausted := end == |s.input|))
  {
    ReadWhileUpTo(s, IsDigit, dot);
    var s1 := s.(pos := dot, exhausted := false);
    var s2 := ParserSpec.Advance(s1);
    ReadWhileUpTo(s2, IsDigit, end);
    var integerPart, realPart := s.input[s.pos..dot], s.input[dot + 1..end];
    assert |realPart| > 0;
    assert s.input[s.pos..end] == integerPart + "." + realPart by {
      SplitAtDot(s.input, s.pos, dot, end);
    }
  }

  lemma SplitAtDot(text: string, start: nat, dot: nat, end: nat)
    requires start <= dot < end <= |text| && text[dot] == '.'
    ensures text[start..end] == text[start..dot] + "." + text[dot + 1..end]
  {
  }

  /** Digits, '.', and more digits are one number token with the decimal's exact value. */
  lemma DecimalTokenRule(s: PState, start: nat, dot: nat, end: nat)
    requires LexerState(s) && s.pos <= start < dot && dot + 1 < end <= |s.input|
    requires forall i :: s.pos <= i < start ==> s.input[i] == ' '
    requires forall i :: start <= i < dot ==> IsDigit(s.input[i])
    requires s.input[dot] == '.'
    requires forall i :: dot < i < end ==> IsDigit(s.input[i])
    requires end == |s.input| || !IsDigit(s.input[end])
    ensures NextToken(s) ==
            Ok((NumberToken(s.input[start..end], DecimalValue(s.input[start..dot], s.input[dot + 1..end])),
                s.(pos := end, exhausted := end == |s.input|)))
  {
    SkipSpacesUpTo(s, start);
    DecimalNumber(s.(pos := start, exhausted := false), dot, end);
  }

  // One of the characters ( ) , + - * / = after optional spaces is a one-character token.
  lemma CharTokenRule(s: PState, start: nat)
    requires LexerState(s) && s.pos <= start < |s.input|
    requires forall i :: s.pos <= i < start ==> s.input[i] == ' '
    requires OneCharacterToken(s.input[start]).Some?
    ensures NextToken(s) ==
            Ok((CharToken(OneCharacterToken(s.input[start]).value, s.input[start]),
                s.(pos := start + 1, exhausted := start + 1 == |s.input|)))
  {
    SkipSpacesUpTo(s, start);
  }

  /** Any other character is rejected where it stands. */
  lemma UnexpectedCharRule(s: PState, start: nat)
    requires LexerState(s) && s.pos <= start < |s.input|
    requires forall i :: s.pos <= i < start ==> s.input[i] == ' '
    requires s.input[start] != ' ' && !IsDigit(s.input[start]) && !IsLetter(s.input[start])
    requires OneCharacterToken(s.input[start]).None?
    ensures NextToken(s) == Err(Failure(UnexpectedChar(s.input[start]), s.(pos := start, exhausted := false)))
  {
    SkipSpacesUpTo(s, start);
  }

  // ---------------------------------------------------------------------------
  // Operands

  /** A lookahead of the tested type is consumed and the next token read in its place. */
  lemma TestTokenMatches(s: PState, kind: TokenType, token: Token, after: PState)
    requires ParserState(s) && TypeOf(s.peeked) == kind
    requires NextToken(s.(current := Some(s.peeked))) == Ok((token, after))
    ensures TestToken(s, kind) == Ok((true, after.(peeked := token)))
  {
  }

  /** An identifier not followed by '(' is an operand on its own. */
  lemma IdentifierOperand(s: PState, name: string, token: Token, after: PState)
    requires ParserState(s) && s.peeked == IdentifierToken(name)
    requires NextToken(s.(current := Some(s.peeked))) == Ok((token, after))
    requires TypeOf(token) != OpenParen
    ensures ParseUnary(s) == Ok((Identifier(name), after.(peeked := token)))
  {
    TestTokenMatches(s, IdentifierType, token, after);
    assert ParseAtom(s) == Ok((Identifier(name), after.(peeked := token)));
  }

  /** A number token is an operand. */
  lemma NumberOperand(s: PState, text: string, value: real, token: Token, after: PState)
    requires ParserState(s) && s.peeked == NumberToken(text, value)
    requires NextToken(s.(current := Some(s.peeked))) == Ok((token, after))
    ensures ParseUnary(s) == Ok((Number(value), after.(peeked := token)))
  {
    TestTokenMatches(s, NumberType, token, after);
    assert ParseAtom(s) == Ok((Number(value), after.(peeked := token)));
  }

  /** A parenthesised expression is an operand, with no node of its own. */
  lemma ParenthesisedOperand(s: PState, inside: PState, inner: Expr, before: PState, after: PState)
    requires ParserState(s) && TypeOf(s.peeked) == OpenParen
    requires TestToken(s, OpenParen) == Ok((true, inside))
    requires ParseExpression(inside) == Ok((inner, before))
    requires ExpectToken(before, ClosedParen) == Ok(((), after))
    requires !inner.Identifier? || TypeOf(after.peeked) != OpenParen
    ensures ParseUnary(s) == Ok((inner, after))
  {
    assert ParseAtom(s) == Ok((inner, after));
  }

  /** An identifier followed by `()` is a call without arguments. */
  lemma EmptyCallOperand(s: PState, name: string, open: Token, s1: PState, close: Token, s2: PState,
                         token: Token, s3: PState)
    requires ParserState(s) && s.peeked == IdentifierToken(name)
    requires NextToken(s.(current := Some(s.peeked))) == Ok((open, s1)) && TypeOf(open) == OpenParen
    requires NextToken(s1.(peeked := open, current := Some(open))) == Ok((close, s2)) && TypeOf(close) == ClosedParen
    requires NextToken(s2.(peeked := close, current := Some(close))) == Ok((token, s3))
    ensures ParseUnary(s) == Ok((FunctionCall(name, []), s3.(peeked := token)))
  {
    TestTokenMatches(s, IdentifierType, open, s1);
    TestTokenMatches(s1.(peeked := open), OpenParen, close, s2);
    TestTokenMatches(s2.(peeked := close), ClosedParen, token, s3);
    assert ParseAtom(s) == Ok((Identifier(name), s1.(peeked := open)));
  }

  /** The argument loop stops at a token that is not a comma. */
  lemma ArgumentsEnd(s: PState, args: seq<Expr>)
    requires ParserState(s) && TypeOf(s.peeked) != CommaType
    ensures ParseArguments(s, args) == Ok((args, s))
  {
  }

  /** A comma and an expression add one argument and continue the loop. */
  lemma ArgumentsContinue(s: PState, args: seq<Expr>, s1: PState, arg: Expr, s2: PState)
    requires ParserState(s) && TypeOf(s.peeked) == CommaType
    requires TestToken(s, CommaType) == Ok((true, s1))
    requires ParseExpression(s1) == Ok((arg, s2))
    ensures ParseArguments(s, args) == ParseArguments(s2, args + [arg])
  {
  }

  /** An identifier, '(', comma-separated arguments and ')' make a call. */
  lemma CallOperand(s: PState, name: string, s1: PState, s2: PState, first: Expr, s3: PState,
                    args: seq<Expr>, s4: PState, s5: PState)
    requires ParserState(s) && s.peeked == IdentifierToken(name) && ParseAtom(s) == Ok((Identifier(name), s1))
    requires TypeOf(s1.peeked) == OpenParen && TestToken(s1, OpenParen) == Ok((true, s2))
    requires TypeOf(s2.peeked) != ClosedParen
    requires ParseExpression(s2) == Ok((first, s3))
    requires ParseArguments(s3, [first]) == Ok((args, s4))
    requires ExpectToken(s4, ClosedParen) == Ok(((), s5))
    ensures ParseUnary(s) == Ok((FunctionCall(name, args), s5))
  {
    assert TestToken(s2, ClosedParen) == Ok((false, s2));
    assert ParseFunction(s) == Ok((FunctionCall(name, args), s5));
  }

  /** An identifier, '(', one argument and a token that is neither ',' nor ')' is an error
      naming the missing ')'. */
  lemma UnclosedCallRejected(s: PState, name: string, open: Token, s1: PState, next: Token, s2: PState,
                             arg: Expr, s3: PState)
    requires ParserState(s) && s.peeked == IdentifierToken(name)
    requires NextToken(s.(current := Some(s.peeked))) == Ok((open, s1)) && TypeOf(open) == OpenParen
    requires NextToken(s1.(peeked := open, current := Some(open))) == Ok((next, s2)) && TypeOf(next) != ClosedParen
    requires ParseExpression(s2.(peeked := next)) == Ok((arg, s3))
    requires TypeOf(s3.peeked) !in {ClosedParen, CommaType}
    ensures ParseUnary(s) == Err(Failure(Expected(ClosedParen), s3))
  {
    TestTokenMatches(s, IdentifierType, open, s1);
    TestTokenMatches(s1.(peeked := open), OpenParen, next, s2);
    assert ParseAtom(s) == Ok((Identifier(name), s1.(peeked := open)));
    UnclosedAfterArgument(s, name, s1.(peeked := open), s2.(peeked := next), arg, s3);
  }

  lemma UnclosedAfterArgument(s: PState, name: string, s1: PState, s2: PState, arg: Expr, s3: PState)
    requires ParserState(s) && s.peeked == IdentifierToken(name) && ParseAtom(s) == Ok((Identifier(name), s1))
    requires TypeOf(s1.peeked) == OpenParen && TestToken(s1, OpenParen) == Ok((true, s2))
    requires TypeOf(s2.peeked) != ClosedParen
    requires ParseExpression(s2) == Ok((arg, s3))
    requires TypeOf(s3.peeked) !in {ClosedParen, CommaType}
    ensures ParseUnary(s) == Err(Failure(Expected(ClosedParen), s3))
  {
    ArgumentsEnd(s3, [arg]);
    assert ParseFunction(s) == Err(Failure(Expected(ClosedParen), s3));
  }

  /** Each leading '-' multiplies its operand by -1. */
  lemma NegatedOperand(s: PState, s1: PState, operand: Expr, s2: PState)
    requires ParserState(s) && TypeOf(s.peeked) == SubOperator
    requires TestToken(s, SubOperator) == Ok((true, s1))
    requires ParseUnary(s1) == Ok((operand, s2))
    ensures ParseUnary(s) == Ok((Product([Number(-1.0), operand]), s2))
  {
  }

  /** A token that starts no operand is an error quoting the token consumed before it;
      with no token consumed yet there is nothing to quote and reading it fails. */
  lemma MissingOperandRejected(s: PState)
    requires ParserState(s)
    requires TypeOf(s.peeked) !in {IdentifierType, NumberType, OpenParen, SubOperator}
    ensures ParseUnary(s) == Err(Failure(if s.current.None? then TypeError else UnexpectedToken(s.current.value), s))
  {
    assert ParseAtom(s) == Err(Failure(if s.current.None? then TypeError else UnexpectedToken(s.current.value), s));
  }

  /** An error in the leftmost operand is the error of every enclosing level. */
  lemma FirstOperandRejected(s: PState, f: Failure)
    requires ParserState(s) && ParseUnary(s) == Err(f)
    ensures ParseBinary(s, 0) == Err(f) && ParseBinary(s, 1) == Err(f)
    ensures ParseExpression(s) == Err(f) && ParseAssignment(s) == Err(f)
  {
    assert ParseBinary(s, 0) == Err(f);
    assert ParseBinary(s, 1) == Err(f);
  }

  // ---------------------------------------------------------------------------
  // Binary operators

  /** Level 0 ends at a token that is neither '*' nor '/'. */
  lemma ProductLevelEnds(s: PState, left: Expr, s1: PState)
    requires ParserState(s) && ParseUnary(s) == Ok((left, s1))
    requires TypeOf(s1.peeked) !in {MulOperator, DivOperator}
    ensures ParseBinary(s, 0) == Ok((left, s1))
  {
  }

  /** `l * r...`: the right operand is everything at level 0 after the '*'. */
  lemma ProductNestsRight(s: PState, left: Expr, s1: PState, s2: PState, right: Expr, s3: PState)
    requires ParserState(s) && ParseUnary(s) == Ok((left, s1))
    requires TypeOf(s1.peeked) == MulOperator && TestToken(s1, MulOperator) == Ok((true, s2))
    requires ParseBinary(s2, 0) == Ok((right, s3))
    ensures ParseBinary(s, 0) == Ok((Product([left, right]), s3))
  {
  }

  /** `l / r...`: the denominator is everything at level 0 after the '/'. */
  lemma FractionNestsRight(s: PState, left: Expr, s1: PState, s2: PState, right: Expr, s3: PState)
    requires ParserState(s) && ParseUnary(s) == Ok((left, s1))
    requires TypeOf(s1.peeked) == DivOperator && TestToken(s1, DivOperator) == Ok((true, s2))
    requires ParseBinary(s2, 0) == Ok((right, s3))
    ensures ParseBinary(s, 0) == Ok((Fraction(left, right), s3))
  {
    assert TestToken(s1, MulOperator) == Ok((false, s1));
  }

  /** Level 1 ends at a token that is neither '+' nor '-'. */
  lemma SumLevelEnds(s: PState, left: Expr, s1: PState)
    requires ParserState(s) && ParseBinary(s, 0) == Ok((left, s1))
    requires TypeOf(s1.peeked) !in {AddOperator, SubOperator}
    ensures ParseBinary(s, 1) == Ok((left, s1))
  {
  }

  /** `l + r...`: the right summand is everything at level 1 after the '+'. */
  lemma SumNestsRight(s: PState, left: Expr, s1: PState, s2: PState, right: Expr, s3: PState)
    requires ParserState(s) && ParseBinary(s, 0) == Ok((left, s1))
    requires TypeOf(s1.peeked) == AddOperator && TestToken(s1, AddOperator) == Ok((true, s2))
    requires ParseBinary(s2, 1) == Ok((right, s3))
    ensures ParseBinary(s, 1) == Ok((Sum([left, right]), s3))
  {
  }

  /** `l - r...`: what is subtracted is everything at level 1 after the '-', so `a - b - c`
      subtracts `b - c`. */
  lemma SubtractionNestsRight(s: PState, left: Expr, s1: PState, s2: PState, right: Expr, s3: PState)
    requires ParserState(s) && ParseBinary(s, 0) == Ok((left, s1))
    requires TypeOf(s1.peeked) == SubOperator && TestToken(s1, SubOperator) == Ok((true, s2))
    requires ParseBinary(s2, 1) == Ok((right, s3))
    ensures ParseBinary(s, 1) == Ok((Subtraction(left, right), s3))
  {
    assert TestToken(s1, AddOperator) == Ok((false, s1));
  }

  // ---------------------------------------------------------------------------
  // Whole inputs

  /** An expression not followed by '=' is the whole statement. */
  lemma ExpressionStatement(s: PState, e: Expr, s1: PState)
    requires ParserState(s) && ParseExpression(s) == Ok((e, s1))
    requires TypeOf(s1.peeked) != EqualSign
    ensures ParseAssignment(s) == Ok((e, s1))
  {
  }

  /** `l = r`. */
  lemma AssignmentStatement(s: PState, left: Expr, s1: PState, s2: PState, right: Expr, s3: PState)
    requires ParserState(s) && ParseExpression(s) == Ok((left, s1))
    requires TypeOf(s1.peeked) == EqualSign && TestToken(s1, EqualSign) == Ok((true, s2))
    requires ParseExpression(s2) == Ok((right, s3))
    ensures ParseAssignment(s) == Ok((Assignment(left, right), s3))
  {
  }

  /** The state `parse` starts parsing from. */
  function Reset(s: PState, input: string): PState
  {
    s.(input := input, exhausted := false, finished := false, pos := 0)
  }

  /** A statement followed by the end of the input is what `parse` returns. */
  lemma WholeInputAccepted(s: PState, input: string, first: Token, s1: PState, e: Expr, s2: PState)
    requires |input| > 0
    requires NextToken(Reset(s, input)) == Ok((first, s1))
    requires ParseAssignment(s1.(peeked := first)) == Ok((e, s2))
    requires s2.peeked == EofToken
    ensures Parse(s, input) == Ok((e, s2.(current := Some(EofToken), finished := true)))
  {
    assert ParserState(s1.(peeked := first));
  }

  /** An input that is one operand is accepted as that operand. */
  lemma OperandIsWholeInput(s: PState, input: string, first: Token, s1: PState, e: Expr, s2: PState)
    requires |input| > 0
    requires NextToken(Reset(s, input)) == Ok((first, s1))
    requires ParseUnary(s1.(peeked := first)) == Ok((e, s2))
    requires s2.peeked == EofToken
    ensures Parse(s, input) == Ok((e, s2.(current := Some(EofToken), finished := true)))
  {
    var start := s1.(peeked := first);
    assert ParserState(start);
    ProductLevelEnds(start, e, s2);
    SumLevelEnds(start, e, s2);
    ExpressionStatement(start, e, s2);
    WholeInputAccepted(s, input, first, s1, e, s2);
  }

  /** A statement followed by anything but the end of the input is rejected. */
  lemma TrailingInputRejected(s: PState, input: string, first: Token, s1: PState, e: Expr, s2: PState)
    requires |input| > 0
    requires NextToken(Reset(s, input)) == Ok((first, s1))
    requires ParseAssignment(s1.(peeked := first)) == Ok((e, s2))
    requires s2.peeked != EofToken
    ensures Parse(s, input) == Err(Failure(Expected(EofType), s2))
  {
    assert ParserState(s1.(peeked := first));
  }

  /** An error in the statement is what `parse` throws. */
  lemma StatementRejected(s: PState, input: string, first: Token, s1: PState, f: Failure)
    requires |input| > 0
    requires NextToken(Reset(s, input)) == Ok((first, s1))
    requires ParseAssignment(s1.(peeked := first)) == Err(f)
    ensures Parse(s, input) == Err(f)
  {
    assert ParserState(s1.(peeked := first));
  }
}
