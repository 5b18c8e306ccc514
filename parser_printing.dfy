/** A printer for the expressions the parser builds, written from the grammar and not from
    the parser's code. Every binary operator takes its right operand at its own level, since
    the parser nests to the right. A sum used as a factor is parenthesised, as is a product
    used as the left operand of `*` or `/`. The product of -1 and `x` prints as `-x`. A
    parse of a printed expression must give the expression back. */
module ParserPrinting {
  import opened Wrappers
  import opened Expression
  import opened ParserSpec
  import opened ParserRules
  import opened ParserExamples

  /** The decimal digits of `n`, most significant first. */
  function DigitText(n: nat): (r: string)
    ensures |r| >= 1
    ensures forall i :: 0 <= i < |r| ==> IsDigit(r[i])
    ensures DigitsValue(r) == n
  {
    var last := [(n % 10 + '0' as int) as char];
    if n < 10 then
      assert last[..0] == [];
      last
    else
      var front := DigitText(n / 10);
      assert (front + last)[..|front|] == front;
      front + last
  }

  /** A whole non-negative number prints as its digits; no other number is printable. */
  function NumberText(v: real): string
  {
    if v >= 0.0 && v == v.Floor as real then DigitText(v.Floor) else "?"
  }

  predicate IsNegation(e: Expr)
  {
    e.Product? && |e.factors| == 2 && e.factors[0] == Number(-1.0)
  }

  predicate IsBinarySum(e: Expr)
  {
    e.Sum? && |e.summands| == 2
  }

  predicate IsBinaryProduct(e: Expr)
  {
    (e.Product? && |e.factors| == 2 && !IsNegation(e)) || e.Fraction?
  }

  /** The top level: a statement, with or without `=`. */
  function Show(e: Expr): string
  {
    if e.Assignment? then ShowSum(e.left) + " = " + ShowSum(e.right) else ShowSum(e)
  }

  function ShowSum(e: Expr): string
    decreases e, 5
  {
    if IsBinarySum(e) then SumText(e) else ShowProduct(e)
  }

  /** `l + r`, or `l - x` when `r` is the negation of `x`. */
  function SumText(e: Expr): string
    requires IsBinarySum(e)
    decreases e, 0
  {
    var l, r := e.summands[0], e.summands[1];
    if IsNegation(r) then ShowProduct(l) + " - " + ShowSum(r.factors[1])
    else ShowProduct(l) + " + " + ShowSum(r)
  }

  function ShowProduct(e: Expr): string
    decreases e, 4
  {
    if IsBinaryProduct(e) then ProductText(e) else ShowUnary(e)
  }

  /** `l * r` or `l / r`. */
  function ProductText(e: Expr): string
    requires IsBinaryProduct(e)
    decreases e, 0
  {
    if e.Fraction? then ShowUnary(e.numerator) + " / " + ShowProduct(e.denominator)
    else ShowUnary(e.factors[0]) + " * " + ShowProduct(e.factors[1])
  }

  function ShowUnary(e: Expr): string
    decreases e, 3
  {
    if IsNegation(e) then "-" + ShowUnary(e.factors[1]) else ShowAtom(e)
  }

  /** Names, numbers and calls as they are; a sum or product in parentheses. Powers,
      assignments below the top and sums or products of other lengths have no syntax. */
  function ShowAtom(e: Expr): string
    decreases e, 2
  {
    if e.Identifier? then e.name
    else if e.Number? then NumberText(e.value)
    else if e.FunctionCall? then e.name + "(" + ShowArguments(e.args) + ")"
    else if IsBinarySum(e) then "(" + SumText(e) + ")"
    else if IsBinaryProduct(e) then "(" + ProductText(e) + ")"
    else "?"
  }

  /** The arguments, separated by ", ". */
  function ShowArguments(args: seq<Expr>): string
    decreases args
  {
    if |args| == 0 then ""
    else if |args| == 1 then ShowSum(args[0])
    else ShowSum(args[0]) + ", " + ShowArguments(args[1..])
  }

  lemma WholeNumberShows(n: nat)
    ensures Show(Number(n as real)) == DigitText(n)
  {
    var e := Number(n as real);
    assert (n as real).Floor == n;
    assert ShowAtom(e) == DigitText(n);
    assert ShowUnary(e) == ShowAtom(e);
    assert ShowProduct(e) == ShowUnary(e);
  }

  /** Every whole number prints as digits that parse back to that number. */
  lemma WholeNumberPrintsBack(n: nat)
    ensures Show(Number(n as real)) == DigitText(n)
    ensures Parse(Fresh, Show(Number(n as real))) ==
            Ok((Number(n as real), At(DigitText(n), |DigitText(n)|, true, true, Some(EofToken), EofToken)))
  {
    WholeNumberShows(n);
    var input := DigitText(n);
    assert input[0..|input|] == input;
    IntegerTokenRule(Reset(Fresh, input), 0, |input|);
    LoneNumber(input, input, n as real);
  }

  /** Every name of letters prints as itself and parses back to that identifier. */
  lemma NamePrintsBack(name: string)
    requires |name| > 0 && forall i :: 0 <= i < |name| ==> IsLetter(name[i])
    ensures Show(Identifier(name)) == name
    ensures Parse(Fresh, Show(Identifier(name))) ==
            Ok((Identifier(name), At(name, |name|, true, true, Some(EofToken), EofToken)))
  {
    var e := Identifier(name);
    assert ShowProduct(e) == ShowUnary(e) == name;
    assert name[0..|name|] == name;
    var token := IdentifierToken(name);
    var s1 := At(name, |name|, true, false, None, EofToken);
    IdentifierTokenRule(Reset(Fresh, name), 0, |name|);
    var read := s1.(peeked := token, current := Some(token));
    EndOfInput(read);
    IdentifierOperand(s1.(peeked := token), name, EofToken, read.(finished := true));
    OperandIsWholeInput(Fresh, name, token, s1, e, s1.(current := Some(token), finished := true, peeked := EofToken));
  }

  // The printed form of each whole-input example, and its parse.

  lemma NumberPrints()
    ensures Show(Number(1034.0)) == "1034"
  {
    assert (1034.0).Floor == 1034;
    calc {
      DigitText(1034);
      DigitText(103) + "4";
      DigitText(10) + "3" + "4";
      DigitText(1) + "0" + "3" + "4";
    }
  }

  lemma NumberPrintsBack()
    ensures Parse(Fresh, Show(Number(1034.0))).Ok? && Parse(Fresh, Show(Number(1034.0))).value.0 == Number(1034.0)
  {
    NumberPrints();
    IntegerLiteral();
  }

  lemma ChainPrints()
    ensures Show(Subtraction(Identifier("a"), Subtraction(Identifier("b"), Identifier("c")))) == Chain
  {
    assert ShowSum(Subtraction(Identifier("b"), Identifier("c"))) == "b - c";
  }

  lemma ChainPrintsBack()
    ensures var e := Subtraction(Identifier("a"), Subtraction(Identifier("b"), Identifier("c")));
            Parse(Fresh, Show(e)).Ok? && Parse(Fresh, Show(e)).value.0 == e
  {
    ChainPrints();
    SubtractionChainNestsRight();
  }

  lemma GroupedPrints()
    ensures Show(Product([Identifier("a"), Sum([Number(1.0), Identifier("b")])])) == Grouped
  {
    assert (1.0).Floor == 1;
    assert DigitText(1) == "1";
    assert ShowAtom(Sum([Number(1.0), Identifier("b")])) == "(1 + b)";
  }

  lemma GroupedPrintsBack()
    ensures var e := Product([Identifier("a"), Sum([Number(1.0), Identifier("b")])]);
            Parse(Fresh, Show(e)).Ok? && Parse(Fresh, Show(e)).value.0 == e
  {
    GroupedPrints();
    GroupedSumIsOneFactor();
  }

  lemma EmptyCallPrintsBack()
    ensures Show(FunctionCall("f", [])) == EmptyCallInput
    ensures Parse(Fresh, Show(FunctionCall("f", []))).Ok? && Parse(Fresh, Show(FunctionCall("f", []))).value.0 == FunctionCall("f", [])
  {
    EmptyCall();
  }

  lemma TwoArgumentsPrint()
    ensures Show(FunctionCall("f", [Identifier("x"), Identifier("y")])) == TwoArguments
  {
    assert [Identifier("x"), Identifier("y")][1..] == [Identifier("y")];
    assert ShowArguments([Identifier("x"), Identifier("y")]) == "x, y";
  }

  lemma TwoArgumentsPrintBack()
    ensures var e := FunctionCall("f", [Identifier("x"), Identifier("y")]);
            Parse(Fresh, Show(e)).Ok? && Parse(Fresh, Show(e)).value.0 == e
  {
    TwoArgumentsPrint();
    CallWithTwoArguments();
  }

  lemma NegationPrints()
    ensures Show(Product([Number(-1.0), Product([Number(-1.0), Identifier("a")])])) == Negated
  {
    assert ShowUnary(Product([Number(-1.0), Identifier("a")])) == "-a";
  }

  lemma NegationPrintsBack()
    ensures var e := Product([Number(-1.0), Product([Number(-1.0), Identifier("a")])]);
            Parse(Fresh, Show(e)).Ok? && Parse(Fresh, Show(e)).value.0 == e
  {
    NegationPrints();
    DoubleNegation();
  }
}
