/** The lexer and recursive-descent parser of src/math/parser.js, as functions over the
    parser's state. Every function here takes the state the corresponding `Parser` method
    starts from and gives back its result together with the state it leaves behind; a
    thrown error carries the state at the throw, since the parser object outlives it. */
module ParserSpec {
  import opened Wrappers
  import opened Expression

  predicate IsDigit(c: char)
  {
    '0' <= c <= '9'
  }

  predicate IsLetter(c: char)
  {
    ('a' <= c <= 'z') || ('A' <= c <= 'Z')
  }

  /** The value of a run of decimal digits, most significant first (`parseInt(text, 10)`). */
  function DigitsValue(digits: string): int
  {
    if digits == [] then 0
    else DigitsValue(digits[..|digits| - 1]) * 10 + (digits[|digits| - 1] as int - '0' as int)
  }

  function Pow10(n: nat): (r: nat)
    ensures r > 0
  {
    if n == 0 then 1 else 10 * Pow10(n - 1)
  }

  /** The exact value of `integerPart.realPart` (`parseFloat`, without rounding). */
  function DecimalValue(integerPart: string, realPart: string): real
  {
    DigitsValue(integerPart) as real + DigitsValue(realPart) as real / Pow10(|realPart|) as real
  }

  /** `TokenTypes`, plus `Undefined`: the type of the comma token, which reads the missing
      `TokenTypes.COMMA`. */
  datatype TokenType =
    | NumberType | IdentifierType | AddOperator | SubOperator | MulOperator | DivOperator
    | OpenParen | ClosedParen | EqualSign | EofType | Undefined

  /** `TokenTypes.COMMA`, which the token table does not define. */
  const CommaType: TokenType := Undefined

  datatype Token =
    | NumberToken(text: string, number: real)
    | IdentifierToken(name: string)
    | CharToken(kind: TokenType, c: char)
    | EofToken

  function TypeOf(token: Token): TokenType
  {
    match token
    case NumberToken(_, _) => NumberType
    case IdentifierToken(_) => IdentifierType
    case CharToken(kind, _) => kind
    case EofToken => EofType
  }

  /** Only identifier and number tokens have the identifier and number types, and only
      the EOF token has the EOF type. */
  predicate WellTyped(token: Token)
  {
    token.CharToken? ==> token.kind !in {NumberType, IdentifierType, EofType}
  }

  /** The table of one-character tokens. */
  function OneCharacterToken(c: char): (r: Option<TokenType>)
    ensures r.Some? <==> c in "(),+-*/="
    ensures r.Some? ==> r.value !in {NumberType, IdentifierType, EofType}
  {
    match c
    case '(' => Some(OpenParen)
    case ')' => Some(ClosedParen)
    case ',' => Some(CommaType)
    case '+' => Some(AddOperator)
    case '-' => Some(SubOperator)
    case '*' => Some(MulOperator)
    case '/' => Some(DivOperator)
    case '=' => Some(EqualSign)
    case _ => None
  }

  /** The `ParseError`s thrown, by message, and the TypeError of reading `.value` of an
      undefined current token. `UnexpectedToken` carries the token its message quotes: the
      one consumed last, not the one that was unexpected. */
  datatype ParseError =
    | ExpectedInput
    | UnexpectedChar(c: char)
    | UnexpectedToken(last: Token)
    | Expected(kind: TokenType)
    | TypeError

  /** The fields of a `Parser`: `current` is `None` while `currentToken` is undefined. */
  datatype PState = PState(input: string, pos: nat, exhausted: bool, finished: bool,
                           current: Option<Token>, peeked: Token)

  /** A freshly constructed parser: only `currentToken` is ever read before `parse` sets
      it, and it is undefined. */
  const Fresh: PState := PState("", 0, false, false, None, EofToken)

  datatype Failure = Failure(error: ParseError, state: PState)

  type Step<T> = Result<(T, PState), Failure>

  /** The cursor never passes the end of the input, and `exhausted` says it is there. */
  predicate LexerState(s: PState)
  {
    |s.input| > 0 && s.pos <= |s.input| && (s.exhausted <==> s.pos == |s.input|)
  }

  /** Between tokens: an EOF lookahead means the input is used up. */
  predicate ParserState(s: PState)
  {
    LexerState(s) && WellTyped(s.peeked) && (s.peeked.EofToken? ==> s.exhausted)
  }

  /** What is left to read, counting a lookahead token that is not EOF as one more: every
      token the parser consumes, other than EOF, makes this smaller. */
  function Measure(s: PState): nat
    requires LexerState(s)
  {
    |s.input| - s.pos + (if s.peeked.EofToken? then 0 else 1)
  }

  // ---------------------------------------------------------------------------
  // Lexer

  /** `advance()`: one character on; `exhausted` once the cursor reaches the end. */
  function Advance(s: PState): (r: PState)
    requires LexerState(s) && !s.exhausted
    ensures LexerState(r) && r.pos == s.pos + 1
    ensures r == s.(pos := r.pos, exhausted := r.exhausted)
  {
    var pos := s.pos + 1;
    s.(pos := pos, exhausted := if pos == |s.input| then true else s.exhausted)
  }

  /** `readWhile(condition)`: the longest run from the cursor of characters satisfying the
      condition, and the state after it. */
  function ReadWhile(s: PState, condition: char -> bool): (r: (string, PState))
    requires LexerState(s)
    ensures LexerState(r.1) && r.1 == s.(pos := r.1.pos, exhausted := r.1.exhausted)
    ensures s.pos <= r.1.pos && r.0 == s.input[s.pos..r.1.pos]
    ensures forall i :: s.pos <= i < r.1.pos ==> condition(s.input[i])
    ensures r.1.exhausted || !condition(s.input[r.1.pos])
    decreases |s.input| - s.pos
  {
    if s.exhausted || !condition(s.input[s.pos]) then ("", s)
    else
      var (_, after) := ReadWhile(Advance(s), condition);
      (s.input[s.pos..after.pos], after)
  }

  /** `parseNumber()`: a digit run, then optionally '.' and a second digit run; the text
      read and its value. */
  function ParseNumber(s: PState): (r: ((string, real), PState))
    requires LexerState(s)
    ensures LexerState(r.1) && r.1 == s.(pos := r.1.pos, exhausted := r.1.exhausted)
    ensures s.pos <= r.1.pos && r.0.0 == s.input[s.pos..r.1.pos]
    ensures !s.exhausted && IsDigit(s.input[s.pos]) ==> s.pos < r.1.pos
  {
    var (integerPart, s1) := ReadWhile(s, IsDigit);
    var integerValue := if |integerPart| > 0 then DigitsValue(integerPart) as real else 0.0;
    if s1.exhausted || s1.input[s1.pos] != '.' then ((integerPart, integerValue), s1)
    else
      var (realPart, s3) := ReadWhile(Advance(s1), IsDigit);
      var realValue := if |realPart| > 0 then DecimalValue(integerPart, realPart) else integerValue;
      SplitAtDot(s.input, s.pos, s1.pos, s3.pos);
      ((integerPart + "." + realPart, realValue), s3)
  }

  lemma SplitAtDot(t: string, i: nat, j: nat, k: nat)
    requires i <= j < k <= |t| && t[j] == '.'
    ensures t[i..k] == t[i..j] + "." + t[j + 1..k]
  {
  }

  /** The whitespace loop at the head of `nextToken()`: skips spaces. */
  function SkipSpaces(s: PState): (r: PState)
    requires LexerState(s)
    ensures LexerState(r) && r == s.(pos := r.pos, exhausted := r.exhausted)
    ensures s.pos <= r.pos && forall i :: s.pos <= i < r.pos ==> s.input[i] == ' '
    ensures r.exhausted || s.input[r.pos] != ' '
    decreases |s.input| - s.pos
  {
    if !s.exhausted && s.input[s.pos] == ' ' then SkipSpaces(Advance(s)) else s
  }

  /** `nextToken()`: EOF once the input is used up (marking the parser finished), else a
      number, an identifier or a one-character token; any other character is an error. */
  function NextToken(s: PState): (r: Result<(Token, PState), Failure>)
    requires LexerState(s)
    ensures r.Ok? ==> var (token, after) := r.value;
              LexerState(after) && WellTyped(token) && after.input == s.input && after.current == s.current &&
              after.peeked == s.peeked && s.pos <= after.pos &&
              (token.EofToken? ==> after.exhausted) && (!token.EofToken? ==> s.pos < after.pos)
    ensures s.exhausted ==> r == Ok((EofToken, s.(finished := true)))
    ensures r.Err? ==> r.error.error.UnexpectedChar? && r.error.error.c !in " (),+-*/=" &&
                       !IsDigit(r.error.error.c) && !IsLetter(r.error.error.c)
  {
    var s1 := SkipSpaces(s);
    if s1.exhausted then Ok((EofToken, s1.(finished := true)))
    else
      var c := s1.input[s1.pos];
      if IsDigit(c) then
        var ((text, number), s2) := ParseNumber(s1);
        Ok((NumberToken(text, number), s2))
      else if IsLetter(c) then
        var (name, s2) := ReadWhile(s1, IsLetter);
        Ok((IdentifierToken(name), s2))
      else
        match OneCharacterToken(c)
        case Some(kind) => Ok((CharToken(kind, c), Advance(s1)))
        case None => Err(Failure(UnexpectedChar(c), s1))
  }

  // ---------------------------------------------------------------------------
  // Parser

  /** `testToken(type)`: when the lookahead has the type, it becomes the current token and
      the next token is read into the lookahead. */
  function TestToken(s: PState, kind: TokenType): (r: Step<bool>)
    requires ParserState(s)
    ensures r.Ok? ==> ParserState(r.value.1) && r.value.1.input == s.input && Measure(r.value.1) <= Measure(s)
    ensures r.Ok? && !r.value.0 ==> r.value.1 == s && TypeOf(s.peeked) != kind
    ensures r.Ok? && r.value.0 ==> TypeOf(s.peeked) == kind && r.value.1.current == Some(s.peeked) &&
                                   (kind != EofType ==> Measure(r.value.1) < Measure(s))
    ensures r.Err? ==> TypeOf(s.peeked) == kind
  {
    if TypeOf(s.peeked) == kind then
      var (token, s1) :- NextToken(s.(current := Some(s.peeked)));
      Ok((true, s1.(peeked := token)))
    else Ok((false, s))
  }

  /** `expectToken(type, message)`: `testToken`, throwing when the lookahead has another type. */
  function ExpectToken(s: PState, kind: TokenType): (r: Step<()>)
    requires ParserState(s)
    ensures r.Ok? ==> ParserState(r.value.1) && r.value.1.input == s.input && Measure(r.value.1) <= Measure(s) &&
                      TypeOf(s.peeked) == kind && r.value.1.current == Some(s.peeked)
    ensures TypeOf(s.peeked) != kind ==> r == Err(Failure(Expected(kind), s))
  {
    var (found, s1) :- TestToken(s, kind);
    if found then Ok(((), s1)) else Err(Failure(Expected(kind), s1))
  }

  /** `parseAtom()`: an identifier, a number, or a parenthesised expression, which is
      returned without a wrapper node. */
  function ParseAtom(s: PState): (r: Step<Expr>)
    requires ParserState(s)
    ensures r.Ok? ==> ParserState(r.value.1) && r.value.1.input == s.input && Measure(r.value.1) < Measure(s)
    decreases Measure(s), 1
  {
    var (isName, s1) :- TestToken(s, IdentifierType);
    if isName then Ok((Identifier(s1.current.value.name), s1))
    else
      var (isNumber, s2) :- TestToken(s1, NumberType);
      if isNumber then Ok((Number(s2.current.value.number), s2))
      else
        var (isOpen, s3) :- TestToken(s2, OpenParen);
        if isOpen then
          var (atom, s4) :- ParseExpression(s3);
          var (_, s5) :- ExpectToken(s4, ClosedParen);
          Ok((atom, s5))
        else if s3.current.None? then Err(Failure(TypeError, s3))
        else Err(Failure(UnexpectedToken(s3.current.value), s3))
  }

  /** `parseFunction()`: an atom, and when it is an identifier followed by '(' a call with
      zero or more comma-separated arguments and a closing ')'. */
  function ParseFunction(s: PState): (r: Step<Expr>)
    requires ParserState(s)
    ensures r.Ok? ==> ParserState(r.value.1) && r.value.1.input == s.input && Measure(r.value.1) < Measure(s)
    decreases Measure(s), 2
  {
    var (atom, s1) :- ParseAtom(s);
    if !atom.Identifier? then Ok((atom, s1))
    else
      var (isCall, s2) :- TestToken(s1, OpenParen);
      if !isCall then Ok((atom, s2))
      else
        var (isEmpty, s3) :- TestToken(s2, ClosedParen);
        if isEmpty then Ok((FunctionCall(atom.name, []), s3))
        else
          var (first, s4) :- ParseExpression(s3);
          var (args, s5) :- ParseArguments(s4, [first]);
          var (_, s6) :- ExpectToken(s5, ClosedParen);
          Ok((FunctionCall(atom.name, args), s6))
  }

  /** The argument loop of `parseFunction()`: while a comma follows, one more argument. */
  function ParseArguments(s: PState, args: seq<Expr>): (r: Step<seq<Expr>>)
    requires ParserState(s)
    ensures r.Ok? ==> ParserState(r.value.1) && r.value.1.input == s.input && Measure(r.value.1) <= Measure(s)
    ensures r.Ok? ==> |r.value.0| >= |args| && r.value.0[..|args|] == args
    decreases Measure(s), 0
  {
    match TestToken(s, CommaType)
    case Err(f) => Err(f)
    case Ok((isComma, s1)) =>
      if !isComma then Ok((args, s1))
      else
        match ParseExpression(s1)
        case Err(f) => Err(f)
        case Ok((arg, s2)) =>
          var r := ParseArguments(s2, args + [arg]);
          if r.Err? then r
          else
            PrefixShrinks(r.value.0, args, arg);
            r
  }

  lemma PrefixShrinks<T>(xs: seq<T>, ys: seq<T>, y: T)
    requires |xs| >= |ys| + 1 && xs[..|ys| + 1] == ys + [y]
    ensures xs[..|ys|] == ys
  {
    assert xs[..|ys|] == xs[..|ys| + 1][..|ys|];
  }

  /** `parseUnaryOperator()`: each leading '-' multiplies what follows by -1. */
  function ParseUnary(s: PState): (r: Step<Expr>)
    requires ParserState(s)
    ensures r.Ok? ==> ParserState(r.value.1) && r.value.1.input == s.input && Measure(r.value.1) < Measure(s)
    decreases Measure(s), 3
  {
    var (isMinus, s1) :- TestToken(s, SubOperator);
    if isMinus then
      var (operand, s2) :- ParseUnary(s1);
      Ok((Product([Number(-1.0), operand]), s2))
    else ParseFunction(s1)
  }

  /** `parseBinaryOperator(pred)`: level 1 is '+' and '-', level 0 is '*' and '/'; the
      right operand is parsed at the same level, so chains nest to the right. */
  function ParseBinary(s: PState, pred: nat): (r: Step<Expr>)
    requires ParserState(s) && pred <= 1
    ensures r.Ok? ==> ParserState(r.value.1) && r.value.1.input == s.input && Measure(r.value.1) < Measure(s)
    decreases Measure(s), 4 + pred
  {
    var (left, s1) :- if pred == 0 then ParseUnary(s) else ParseBinary(s, pred - 1);
    if pred == 1 then
      var (isPlus, s2) :- TestToken(s1, AddOperator);
      if isPlus then
        var (right, s3) :- ParseBinary(s2, pred);
        Ok((Sum([left, right]), s3))
      else
        var (isMinus, s3) :- TestToken(s2, SubOperator);
        if isMinus then
          var (right, s4) :- ParseBinary(s3, pred);
          Ok((Subtraction(left, right), s4))
        else Ok((left, s3))
    else
      var (isTimes, s2) :- TestToken(s1, MulOperator);
      if isTimes then
        var (right, s3) :- ParseBinary(s2, pred);
        Ok((Product([left, right]), s3))
      else
        var (isOver, s3) :- TestToken(s2, DivOperator);
        if isOver then
          var (right, s4) :- ParseBinary(s3, pred);
          Ok((Fraction(left, right), s4))
        else Ok((left, s3))
  }

  /** `parseExpression()`: the loosest binary level. */
  function ParseExpression(s: PState): (r: Step<Expr>)
    requires ParserState(s)
    ensures r.Ok? ==> ParserState(r.value.1) && r.value.1.input == s.input && Measure(r.value.1) < Measure(s)
    decreases Measure(s), 6
  {
    ParseBinary(s, 1)
  }

  /** `parseAssignment()`: an expression, optionally followed by '=' and a second one. */
  function ParseAssignment(s: PState): (r: Step<Expr>)
    requires ParserState(s)
    ensures r.Ok? ==> ParserState(r.value.1) && r.value.1.input == s.input && Measure(r.value.1) < Measure(s)
  {
    var (left, s1) :- ParseExpression(s);
    var (isAssignment, s2) :- TestToken(s1, EqualSign);
    if isAssignment then
      var (right, s3) :- ParseExpression(s2);
      Ok((Assignment(left, right), s3))
    else Ok((left, s2))
  }

  /** `parse(input)`: resets the cursor (but not `currentToken`), reads the first token,
      parses an assignment or expression and demands EOF after it. */
  function Parse(s: PState, input: string): (r: Step<Expr>)
    ensures |input| == 0 ==> r == Err(Failure(ExpectedInput, s))
    ensures r.Ok? ==> r.value.1.input == input && r.value.1.exhausted && r.value.1.pos == |input|
  {
    if |input| == 0 then Err(Failure(ExpectedInput, s))
    else
      var s0 := s.(input := input, exhausted := false, finished := false, pos := 0);
      var (token, s1) :- NextToken(s0);
      var (expr, s2) :- ParseAssignment(s1.(peeked := token));
      var (_, s3) :- ExpectToken(s2, EofType);
      Ok((expr, s3))
  }
}
