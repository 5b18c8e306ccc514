/** The `Parser` class of src/math/parser.js: a cursor over the input with one token of
    lookahead, whose methods update the fields in place. Each method is proved to do what
    the function of the same name in `ParserSpec` says, from the state it starts in. */
module Parsing {
  import opened Wrappers
  import opened Expression
  import opened ParserSpec

  /** A method's outcome and final state are those the specification gives. */
  ghost predicate Agrees<T>(r: Result<T, ParseError>, spec: Step<T>, now: PState)
  {
    match spec
    case Ok((value, after)) => r == Ok(value) && now == after
    case Err(Failure(error, after)) => r == Err(error) && now == after
  }

  class Parser {
    var input: string
    var pos: nat
    var exhausted: bool
    var finished: bool
    var currentToken: Option<Token>
    var peekedToken: Token

    ghost function State(): PState
      reads this
    {
      PState(input, pos, exhausted, finished, currentToken, peekedToken)
    }

    constructor()
      ensures State() == Fresh
    {
      input := "";
      pos := 0;
      exhausted := false;
      finished := false;
      currentToken := None;
      peekedToken := EofToken;
    }

    method Advance()
      requires LexerState(State()) && !exhausted
      modifies this
      ensures State() == ParserSpec.Advance(old(State()))
    {
      pos := pos + 1;
      if pos == |input| {
        exhausted := true;
      }
    }

    method ReadWhile(condition: char -> bool) returns (text: string)
      requires LexerState(State())
      modifies this
      ensures (text, State()) == ParserSpec.ReadWhile(old(State()), condition)
    {
      var start := pos;
      while !exhausted && condition(input[pos])
        invariant LexerState(State()) && State() == old(State()).(pos := pos, exhausted := exhausted)
        invariant start <= pos
        invariant ParserSpec.ReadWhile(State(), condition).1 == ParserSpec.ReadWhile(old(State()), condition).1
        decreases |input| - pos
      {
        Advance();
      }
      text := input[start..pos];
    }

    method ParseNumber() returns (text: string, number: real)
      requires LexerState(State())
      modifies this
      ensures ((text, number), State()) == ParserSpec.ParseNumber(old(State()))
    {
      var integerPart := ReadWhile(IsDigit);
      var integerValue := if |integerPart| > 0 then DigitsValue(integerPart) as real else 0.0;
      if exhausted || input[pos] != '.' {
        return integerPart, integerValue;
      }
      Advance();
      var realPart := ReadWhile(IsDigit);
      var realValue := if |realPart| > 0 then DecimalValue(integerPart, realPart) else integerValue;
      return integerPart + "." + realPart, realValue;
    }

    method NextToken() returns (r: Result<Token, ParseError>)
      requires LexerState(State())
      modifies this
      ensures Agrees(r, ParserSpec.NextToken(old(State())), State())
    {
      while !exhausted && input[pos] == ' '
        invariant LexerState(State()) && State() == old(State()).(pos := pos, exhausted := exhausted)
        invariant SkipSpaces(State()) == SkipSpaces(old(State()))
        decreases |input| - pos
      {
        Advance();
      }
      if exhausted {
        finished := true;
        return Ok(EofToken);
      }
      var c := input[pos];
      if IsDigit(c) {
        var text, number := ParseNumber();
        return Ok(NumberToken(text, number));
      }
      if IsLetter(c) {
        var name := ReadWhile(IsLetter);
        return Ok(IdentifierToken(name));
      }
      var kind := OneCharacterToken(c);
      if kind.Some? {
        Advance();
        return Ok(CharToken(kind.value, c));
      }
      return Err(UnexpectedChar(c));
    }

    method TestToken(kind: TokenType) returns (r: Result<bool, ParseError>)
      requires ParserState(State())
      modifies this
      ensures Agrees(r, ParserSpec.TestToken(old(State()), kind), State())
    {
      if TypeOf(peekedToken) == kind {
        currentToken := Some(peekedToken);
        var token :- NextToken();
        peekedToken := token;
        return Ok(true);
      }
      return Ok(false);
    }

    method ExpectToken(kind: TokenType) returns (r: Result<(), ParseError>)
      requires ParserState(State())
      modifies this
      ensures Agrees(r, ParserSpec.ExpectToken(old(State()), kind), State())
    {
      var found :- TestToken(kind);
      if !found {
        return Err(Expected(kind));
      }
      return Ok(());
    }

    method ParseAtom() returns (r: Result<Expr, ParseError>)
      requires ParserState(State())
      modifies this
      ensures Agrees(r, ParserSpec.ParseAtom(old(State())), State())
      decreases Measure(State()), 1
    {
      var isName :- TestToken(IdentifierType);
      if isName {
        return Ok(Identifier(currentToken.value.name));
      }
      var isNumber :- TestToken(NumberType);
      if isNumber {
        return Ok(Number(currentToken.value.number));
      }
      var isOpen :- TestToken(OpenParen);
      if isOpen {
        var atom :- ParseExpression();
        var closed :- ExpectToken(ClosedParen);
        return Ok(atom);
      }
      if currentToken.None? {
        return Err(TypeError);
      }
      return Err(UnexpectedToken(currentToken.value));
    }

    method ParseFunction() returns (r: Result<Expr, ParseError>)
      requires ParserState(State())
      modifies this
      ensures Agrees(r, ParserSpec.ParseFunction(old(State())), State())
      decreases Measure(State()), 2
    {
      var atom :- ParseAtom();
      if !atom.Identifier? {
        return Ok(atom);
      }
      var isCall :- TestToken(OpenParen);
      if !isCall {
        return Ok(atom);
      }
      var isEmpty :- TestToken(ClosedParen);
      if isEmpty {
        return Ok(FunctionCall(atom.name, []));
      }
      var first :- ParseExpression();
      var args := [first];
      ghost var afterFirst := State();
      while true
        invariant ParserState(State()) && Measure(State()) < Measure(old(State()))
        invariant ParseArguments(afterFirst, [first]) == ParseArguments(State(), args)
        decreases Measure(State())
      {
        var isComma :- TestToken(CommaType);
        if !isComma {
          break;
        }
        var arg :- ParseExpression();
        args := args + [arg];
      }
      var closed :- ExpectToken(ClosedParen);
      return Ok(FunctionCall(atom.name, args));
    }

    method ParseUnary() returns (r: Result<Expr, ParseError>)
      requires ParserState(State())
      modifies this
      ensures Agrees(r, ParserSpec.ParseUnary(old(State())), State())
      decreases Measure(State()), 3
    {
      var isMinus :- TestToken(SubOperator);
      if isMinus {
        var operand :- ParseUnary();
        return Ok(Product([Number(-1.0), operand]));
      }
      r := ParseFunction();
    }

    method ParseBinary(pred: nat) returns (r: Result<Expr, ParseError>)
      requires ParserState(State()) && pred <= 1
      modifies this
      ensures Agrees(r, ParserSpec.ParseBinary(old(State()), pred), State())
      decreases Measure(State()), 4 + pred
    {
      var left: Expr;
      if pred == 0 {
        left :- ParseUnary();
      } else {
        left :- ParseBinary(pred - 1);
      }
      if pred == 1 {
        var isPlus :- TestToken(AddOperator);
        if isPlus {
          var right :- ParseBinary(pred);
          return Ok(Sum([left, right]));
        }
        var isMinus :- TestToken(SubOperator);
        if isMinus {
          var right :- ParseBinary(pred);
          return Ok(Subtraction(left, right));
        }
      } else {
        var isTimes :- TestToken(MulOperator);
        if isTimes {
          var right :- ParseBinary(pred);
          return Ok(Product([left, right]));
        }
        var isOver :- TestToken(DivOperator);
        if isOver {
          var right :- ParseBinary(pred);
          return Ok(Fraction(left, right));
        }
      }
      return Ok(left);
    }

    method ParseExpression() returns (r: Result<Expr, ParseError>)
      requires ParserState(State())
      modifies this
      ensures Agrees(r, ParserSpec.ParseExpression(old(State())), State())
      decreases Measure(State()), 6
    {
      r := ParseBinary(1);
    }

    method ParseAssignment() returns (r: Result<Expr, ParseError>)
      requires ParserState(State())
      modifies this
      ensures Agrees(r, ParserSpec.ParseAssignment(old(State())), State())
    {
      var left :- ParseExpression();
      var isAssignment :- TestToken(EqualSign);
      if isAssignment {
        var right :- ParseExpression();
        return Ok(Assignment(left, right));
      }
      return Ok(left);
    }

    method Parse(input: string) returns (r: Result<Expr, ParseError>)
      modifies this
      ensures Agrees(r, ParserSpec.Parse(old(State()), input), State())
    {
      if |input| == 0 {
        return Err(ExpectedInput);
      }
      this.input := input;
      exhausted := false;
      finished := false;
      pos := 0;
      var token :- NextToken();
      peekedToken := token;
      var expr :- ParseAssignment();
      var end :- ExpectToken(EofType);
      return Ok(expr);
    }
  }
}
