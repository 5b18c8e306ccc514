/** The fraction rules of `simplifyFraction` and the equalities of
    src/math/expression.test.js:83-97, on expression trees, for every fuel large enough. */
module SimplifierExamples {
  import opened Wrappers
  import opened Expression
  import opened Simplifier

  /** An atom: a kind `simplify` returns unchanged and that is neither a Number nor a Power. */
  predicate IsAtom(x: Expr)
  {
    x.Identifier? || x.FunctionCall? || x.Assignment?
  }

  /** Two leaves that are not nodes of kind `k` flatten to themselves. */
  lemma FlattenPair(k: Assoc, u: Expr, v: Expr)
    requires !IsParent(k, u) && !IsParent(k, v)
    ensures FlattenList(k, [u, v]) == [u, v]
  {
    assert Flatten(k, u) == [u];
    assert Flatten(k, v) == [v];
    assert [u, v][1..] == [v];
    assert [v][1..] == [];
    assert FlattenList(k, [v]) == [v];
  }

  lemma MapSimplifyPair(u: Expr, v: Expr, u': Expr, v': Expr, fuel: nat)
    requires Simplify(u, fuel) == Ok(u') && Simplify(v, fuel) == Ok(v')
    ensures MapSimplify([u, v], fuel) == Ok([u', v'])
  {
    assert [u, v][1..] == [v];
    assert [v][1..] == [];
    assert MapSimplify([v][1..], fuel) == Ok([]);
    assert [v'] + [] == [v'];
    assert MapSimplify([v], fuel) == Ok([v']);
    assert [u'] + [v'] == [u', v'];
  }

  /** A product of two factors that are not products, simplified to Fractions or both to
      Sums, reduces to `CombineFactors` of the simplified factors. */
  lemma ProductOfTwoTerms(u: Expr, v: Expr, u': Expr, v': Expr, f: nat)
    requires !u.Product? && !v.Product?
    requires Simplify(u, f) == Ok(u') && Simplify(v, f) == Ok(v')
    requires !u'.Fraction? && !v'.Fraction? && !(u'.Sum? && v'.Sum?)
    ensures Simplify(Product([u, v]), f + 1) == CombineFactors([u', v'], f)
  {
    FlattenPair(ProductNode, u, v);
    MapSimplifyPair(u, v, u', v', f);
    assert SimplifyProduct(Product([u, v]), f) == MultiplyFactors([u', v'], f);
    TwoFactorsMultiplied(u', v', f);
  }

  /** Two factors, neither a Fraction and not both Sums, go straight to `CombineFactors`. */
  lemma TwoFactorsMultiplied(u: Expr, v: Expr, f: nat)
    requires !u.Fraction? && !v.Fraction? && !(u.Sum? && v.Sum?)
    ensures MultiplyFactors([u, v], f) == CombineFactors([u, v], f)
  {
    var factors := [u, v];
    assert !HasFraction(factors);
    assert factors[1..] == [v];
    assert [v][1..] == [];
    assert |FilterKind(factors, SumTag, true)| <= 1 by {
      assert |FilterKind([v], SumTag, true)| <= 1;
    }
    assert ExpandFactors(factors, f) == Ok(factors);
  }

  /** The number of `[n, x]` is folded apart from the non-numeric `x`. */
  lemma CombineFactorsNumberAndTerm(c: real, x: Expr, fuel: nat)
    requires !x.Number?
    ensures CombineFactors([Number(c), x], fuel) == ProductWithConstant([x], Number(c), fuel)
  {
    var factors := [Number(c), x];
    assert factors[1..] == [x];
    assert [x][1..] == [];
    assert FilterKind(factors, NumberTag, false) == [x] by {
      assert FilterKind([x], NumberTag, false) == [x];
    }
    assert FilterKind(factors, NumberTag, true) == [Number(c)] by {
      assert FilterKind([x], NumberTag, true) == [];
    }
    assert ProductValues([Number(c)]) == c by {
      assert [Number(c)][1..] == [];
    }
  }

  /** `x ^ 1` is `x` for an atom `x`. */
  lemma PowerOfOne(x: Expr, fuel: nat)
    requires IsAtom(x)
    requires fuel >= 1
    ensures Simplify(Power(x, Number(1.0)), fuel) == Ok(x)
  {
    assert Simplify(x, fuel - 1) == Ok(x);
    assert Simplify(Number(1.0), fuel - 1) == Ok(Number(1.0));
    assert !Identical(Number(1.0), Number(0.0)) && Identical(Number(1.0), Number(1.0));
  }

  /** A lone atom with the number `c`: zero, the atom itself, or `x * c`. */
  lemma AtomWithConstant(c: real, x: Expr, fuel: nat)
    requires IsAtom(x)
    requires fuel >= 1
    ensures ProductWithConstant([x], Number(c), fuel) ==
            Ok(if c == 0.0 then Number(0.0) else if c == 1.0 then x else Product([x, Number(c)]))
  {
    var terms := ExponentTerms([x]);
    assert terms == [Term(Number(1.0), x)];
    assert terms[1..] == [];
    PowerOfOne(x, fuel);
    assert CombineElements(terms, ProductNode, fuel) == Ok([x]) by {
      assert LikeTerms(terms[1..], x) == [];
      assert UnlikeTerms(terms[1..], x) == [];
      assert CombineElements([], ProductNode, fuel) == Ok([]);
      assert [x] + [] == [x];
    }
    var all := [x, Number(c)];
    assert [x] + [Number(c)] == all;
    assert AnyIdenticalTo(all, 0.0) <==> c == 0.0 by {
      AnyIdenticalToIsMembership(all, 0.0);
    }
    assert all[1..] == [Number(c)];
    assert [Number(c)][1..] == [];
    IdenticalToNumber(x, 1.0);
    IdenticalToNumber(Number(c), 1.0);
    assert WithoutIdenticalTo(all, 1.0) == if c == 1.0 then [x] else all;
  }

  /** `n * x` for an atom `x`: zero, `x` itself, or `x * n` (the number is pushed last). */
  lemma ScaledAtom(c: real, x: Expr, fuel: nat)
    requires IsAtom(x)
    requires fuel >= 2
    ensures Simplify(Product([Number(c), x]), fuel) ==
            Ok(if c == 0.0 then Number(0.0) else if c == 1.0 then x else Product([x, Number(c)]))
  {
    assert Simplify(x, fuel - 1) == Ok(x);
    ProductOfTwoTerms(Number(c), x, Number(c), x, fuel - 1);
    CombineFactorsNumberAndTerm(c, x, fuel - 1);
    AtomWithConstant(c, x, fuel - 1);
  }

  lemma CoefficientTermsPair(u: Expr, v: Expr, tu: Term, tv: Term)
    requires CoefficientTerm(u) == Some(tu) && CoefficientTerm(v) == Some(tv)
    ensures CoefficientTerms([u, v]) == Ok([tu, tv])
  {
    assert [u, v][1..] == [v];
    assert [v][1..] == [];
    assert CoefficientTerms([v][1..]) == Ok([]);
    assert [tv] + [] == [tv];
    assert CoefficientTerms([v]) == Ok([tv]);
    assert [tu] + [tv] == [tu, tv];
  }

  /** Two like terms merge into one element: their coefficients are added, then combined. */
  lemma CombineTwoLikeTerms(t1: Term, t2: Term, k: Assoc, n: Expr, e: Expr, fuel: nat)
    requires Identical(t2.expr, t1.expr) && Identical(t1.expr, t2.expr)
    requires Simplify(Sum([t1.coeff, t2.coeff]), fuel) == Ok(n)
    requires Combine(k, n, t1.expr, fuel) == Ok(e)
    ensures CombineElements([t1, t2], k, fuel) == Ok([e])
  {
    assert [t1, t2][1..] == [t2];
    assert [t2][1..] == [];
    assert LikeTerms([t2], t1.expr) == [t2] by {
      assert LikeTerms([t2][1..], t1.expr) == [];
    }
    assert UnlikeTerms([t2], t1.expr) == [] by {
      assert UnlikeTerms([t2][1..], t1.expr) == [];
    }
    assert FoldCoefficients([t2], t1.coeff, fuel) == Ok(n) by {
      assert FoldCoefficients([t2][1..], n, fuel) == Ok(n);
    }
    assert CombineElements([], k, fuel) == Ok([]);
    assert [e] + [] == [e];
  }

  /** The number folded from two numeric summands. */
  lemma SumOfTwo(u: real, v: real, fuel: nat)
    requires fuel >= 1
    ensures Simplify(Sum([Number(u), Number(v)]), fuel) == Ok(Number(u + v))
  {
    var s := [Number(u), Number(v)];
    SumOfNumbers(s, fuel);
    assert s[1..] == [Number(v)];
    assert [Number(v)][1..] == [];
    assert SumValues([Number(v)][1..]) == 0.0;
    assert SumValues([Number(v)]) == v;
    assert SumValues(s) == u + v;
  }

  /** A sum of two summands that are not sums combines the two simplified summands. */
  lemma SumOfPair(u: Expr, v: Expr, u': Expr, v': Expr, f: nat)
    requires !u.Sum? && !v.Sum?
    requires Simplify(u, f) == Ok(u') && Simplify(v, f) == Ok(v')
    ensures Simplify(Sum([u, v]), f + 1) == CombineSummands([u', v'], f)
  {
    FlattenPair(SumNode, u, v);
    MapSimplifyPair(u, v, u', v', f);
    assert SimplifySum(Sum([u, v]), f) == CombineSummands([u', v'], f);
  }

  /** A sum of two non-numeric summands reduces to `SumWithConstant` with the constant 0. */
  lemma SumOfTwoTerms(u: Expr, v: Expr, u': Expr, v': Expr, f: nat)
    requires !u.Sum? && !v.Sum?
    requires Simplify(u, f) == Ok(u') && Simplify(v, f) == Ok(v')
    requires !u'.Number? && !v'.Number?
    ensures Simplify(Sum([u, v]), f + 1) == SumWithConstant([u', v'], Number(0.0), f)
  {
    SumOfPair(u, v, u', v', f);
    TwoTermsCombined(u', v', f);
  }

  /** Two non-numeric summands keep the constant 0. */
  lemma TwoTermsCombined(u: Expr, v: Expr, f: nat)
    requires !u.Number? && !v.Number?
    ensures CombineSummands([u, v], f) == SumWithConstant([u, v], Number(0.0), f)
  {
    var simplified := [u, v];
    assert simplified[1..] == [v];
    assert [v][1..] == [];
    assert FilterKind(simplified, NumberTag, false) == simplified by {
      assert FilterKind([v], NumberTag, false) == [v];
    }
    assert FilterKind(simplified, NumberTag, true) == [] by {
      assert FilterKind([v], NumberTag, true) == [];
    }
  }

  /** The coefficient of `x * c` for a non-numeric factor `x` is `c`. */
  lemma CoefficientOfScaled(x: Expr, c: real)
    requires !x.Number? && !x.Product?
    ensures CoefficientTerm(Product([x, Number(c)])) == Some(Term(Number(c), x))
  {
    var factors := [x, Number(c)];
    assert Factors(Product(factors)) == factors;
    assert FindIndex((e: Expr) => e.Number?, factors) == Some(1) by {
      assert factors[1..] == [Number(c)];
    }
    assert RemoveAt(factors, 1) == [x];
  }

  /** `a + a` and `2 * a` simplify to the same tree, `a * 2`. */
  lemma AddingLikeTerms(a: string, fuel: nat)
    requires fuel >= 3
    ensures Simplify(Sum([Identifier(a), Identifier(a)]), fuel) == Ok(Product([Identifier(a), Number(2.0)]))
    ensures Simplify(Product([Number(2.0), Identifier(a)]), fuel) == Ok(Product([Identifier(a), Number(2.0)]))
  {
    var x := Identifier(a);
    ScaledAtom(2.0, x, fuel);
    SumOfTwoTerms(x, x, x, x, fuel - 1);
    DoubledAtom(x, fuel - 1);
  }

  /** `x` and `x` merge into `x * 2`. */
  lemma DoubledAtom(x: Expr, f: nat)
    requires IsAtom(x) && f >= 2
    ensures SumWithConstant([x, x], Number(0.0), f) == Ok(Product([x, Number(2.0)]))
  {
    var p := Product([x, Number(2.0)]);
    DoubledTerms(x, f);
    assert WithoutIdenticalTo([p] + [Number(0.0)], 0.0) == [p] by {
      assert [p] + [Number(0.0)] == [p, Number(0.0)];
      assert [p, Number(0.0)][1..] == [Number(0.0)];
      assert [Number(0.0)][1..] == [];
      IdenticalToNumber(p, 0.0);
    }
  }

  /** The coefficients 1 and 1 of `x` add up to 2. */
  lemma DoubledTerms(x: Expr, f: nat)
    requires IsAtom(x) && f >= 2
    ensures CoefficientTerms([x, x]) == Ok([Term(Number(1.0), x), Term(Number(1.0), x)])
    ensures CombineElements([Term(Number(1.0), x), Term(Number(1.0), x)], SumNode, f) == Ok([Product([x, Number(2.0)])])
  {
    var t := Term(Number(1.0), x);
    ScaledAtom(2.0, x, f);
    assert CoefficientTerm(x) == Some(t);
    CoefficientTermsPair(x, x, t, t);
    IdenticalReflexive(x);
    SumOfTwo(1.0, 1.0, f);
    CombineTwoLikeTerms(t, t, SumNode, Number(2.0), Product([x, Number(2.0)]), f);
  }

  /** `a - a` simplifies to 0: the coefficients 1 and -1 cancel. */
  lemma SubtractingSelf(a: string, fuel: nat)
    requires fuel >= 3
    ensures Simplify(Subtraction(Identifier(a), Identifier(a)), fuel) == Ok(Number(0.0))
  {
    var x := Identifier(a);
    var negated := Product([Number(-1.0), x]);
    var simplifiedNegated := Product([x, Number(-1.0)]);
    var f := fuel - 1;
    calc {
      Simplify(Subtraction(x, x), fuel);
    == { ScaledAtom(-1.0, x, f);
         SumOfTwoTerms(x, negated, x, simplifiedNegated, f); }
      SumWithConstant([x, simplifiedNegated], Number(0.0), f);
    == { CancelledAtom(x, f); }
      Ok(Number(0.0));
    }
  }

  /** `x` and `x * -1` cancel. */
  lemma CancelledAtom(x: Expr, f: nat)
    requires IsAtom(x) && f >= 2
    ensures SumWithConstant([x, Product([x, Number(-1.0)])], Number(0.0), f) == Ok(Number(0.0))
  {
    CancelledTerms(x, f);
    assert WithoutIdenticalTo([Number(0.0)] + [Number(0.0)], 0.0) == [] by {
      assert [Number(0.0)] + [Number(0.0)] == [Number(0.0), Number(0.0)];
      assert [Number(0.0), Number(0.0)][1..] == [Number(0.0)];
      assert [Number(0.0)][1..] == [];
    }
  }

  /** The coefficients 1 and -1 of `x` add up to 0. */
  lemma CancelledTerms(x: Expr, f: nat)
    requires IsAtom(x) && f >= 2
    ensures CoefficientTerms([x, Product([x, Number(-1.0)])]) == Ok([Term(Number(1.0), x), Term(Number(-1.0), x)])
    ensures CombineElements([Term(Number(1.0), x), Term(Number(-1.0), x)], SumNode, f) == Ok([Number(0.0)])
  {
    var t1 := Term(Number(1.0), x);
    var t2 := Term(Number(-1.0), x);
    ScaledAtom(0.0, x, f);
    assert CoefficientTerm(x) == Some(t1);
    CoefficientOfScaled(x, -1.0);
    CoefficientTermsPair(x, Product([x, Number(-1.0)]), t1, t2);
    IdenticalReflexive(x);
    SumOfTwo(1.0, -1.0, f);
    CombineTwoLikeTerms(t1, t2, SumNode, Number(0.0), Number(0.0), f);
  }

  // ---------------------------------------------------------------------------
  // Fractions

  /** `u - v` of two numbers simplifies to their difference. */
  lemma SubtractionOfNumbers(u: real, v: real, fuel: nat)
    requires fuel >= 2
    ensures Simplify(Subtraction(Number(u), Number(v)), fuel) == Ok(Number(u - v))
  {
    var f := fuel - 1;
    calc {
      Simplify(Subtraction(Number(u), Number(v)), fuel);
    == { NegatedNumber(v, f);
         SimplifyLeavesAtomsUnchanged(Number(u), f);
         SumOfPair(Number(u), Product([Number(-1.0), Number(v)]), Number(u), Number(-v), f); }
      CombineSummands([Number(u), Number(-v)], f);
    == { SumOfNumberPair(u, -v, f); }
      Ok(Number(u - v));
    }
  }

  /** `-1 * v` of a number is `-v`. */
  lemma NegatedNumber(v: real, f: nat)
    requires f >= 1
    ensures Simplify(Product([Number(-1.0), Number(v)]), f) == Ok(Number(-v))
  {
    ProductOfNumbers([Number(-1.0), Number(v)], f);
    assert [Number(-1.0), Number(v)][1..] == [Number(v)];
    assert [Number(v)][1..] == [];
    assert ProductValues([Number(v)][1..]) == 1.0;
  }

  /** Two numeric summands fold into their sum. */
  lemma SumOfNumberPair(u: real, v: real, f: nat)
    ensures CombineSummands([Number(u), Number(v)], f) == Ok(Number(u + v))
  {
    var numbers := [Number(u), Number(v)];
    assert AllNumbers(numbers);
    FilterKindNone(numbers, NumberTag, false);
    FilterKindAll(numbers, NumberTag, true);
    assert SumValues(numbers) == u + v by {
      assert numbers[1..] == [Number(v)];
      assert [Number(v)][1..] == [];
      assert SumValues([Number(v)][1..]) == 0.0;
    }
  }

  /** A product of one factor or none, after fuel for it: the factor itself, or 1. */
  lemma ShortProduct(s: seq<Expr>, fuel: nat)
    requires fuel >= 1
    requires |s| <= 1
    ensures Simplify(Product(s), fuel) == Ok(if s == [] then Number(1.0) else s[0])
  {
  }

  /** A zero numerator wins over every check of the denominator, a zero denominator
      included: `0 / d` is 0. */
  lemma ZeroNumeratorReduces(d: Expr, fuel: nat)
    requires fuel >= 1
    requires !d.Product?
    ensures ReduceFraction(Number(0.0), d, fuel) == Ok(Number(0.0))
  {
    var zero := [Number(0.0)];
    assert Factors(Number(0.0)) == zero;
    assert zero[1..] == [];
    assert FilterKind(zero, NumberTag, false) == [];
    assert FindIndex((x: Expr) => x.Number?, zero) == Some(0);
    assert zero + [] == zero;
    ShortProduct(zero, fuel);
    var denominatorFactors :=
      (if d.Number? then [d] else []) + FilterKind([d], NumberTag, false);
    assert |denominatorFactors| == 1 by {
      assert [d][1..] == [];
    }
    ShortProduct(denominatorFactors, fuel);
  }

  /** `n / d` is 0 whenever the numerator simplifies to 0 and the denominator to anything but
      a product or a fraction (test "(a - a) / b"). */
  lemma ZeroNumeratorGivesZero(n: Expr, d: Expr, d': Expr, fuel: nat)
    requires fuel >= 2
    requires Simplify(n, fuel - 1) == Ok(Number(0.0))
    requires Simplify(d, fuel - 1) == Ok(d')
    requires !d'.Product? && !d'.Fraction?
    ensures Simplify(Fraction(n, d), fuel) == Ok(Number(0.0))
  {
    ZeroNumeratorReduces(d', fuel - 1);
    FractionOfSimplified(n, d, Number(0.0), d', fuel);
  }

  /** "(a - a) / b" is 0. */
  lemma ZeroDifferenceOverAtom(a: string, b: string, fuel: nat)
    requires fuel >= 4
    ensures Simplify(Fraction(Subtraction(Identifier(a), Identifier(a)), Identifier(b)), fuel) == Ok(Number(0.0))
  {
    SubtractingSelf(a, fuel - 1);
    assert Simplify(Identifier(b), fuel - 1) == Ok(Identifier(b));
    ZeroNumeratorGivesZero(Subtraction(Identifier(a), Identifier(a)), Identifier(b), Identifier(b), fuel);
  }

  /** A fraction whose two sides simplify to non-fractions is reduced from those results. */
  lemma FractionOfSimplified(n: Expr, d: Expr, n': Expr, d': Expr, fuel: nat)
    requires fuel >= 1
    requires Simplify(n, fuel - 1) == Ok(n') && Simplify(d, fuel - 1) == Ok(d')
    requires !n'.Fraction? && !d'.Fraction?
    ensures Simplify(Fraction(n, d), fuel) == ReduceFraction(n', d', fuel - 1)
  {
    assert SimplifyFraction(Fraction(n, d), fuel - 1) == ReduceFraction(n', d', fuel - 1);
  }

  /** `x / 0` throws a division by zero for an atom `x`. */
  lemma AtomOverZeroReduces(x: Expr, fuel: nat)
    requires IsAtom(x)
    requires fuel >= 1
    ensures ReduceFraction(x, Number(0.0), fuel) == Err(DivisionByZero)
  {
    var zero := [Number(0.0)];
    assert [x][1..] == [] && zero[1..] == [];
    assert FilterKind([x], NumberTag, false) == [x];
    assert FilterKind(zero, NumberTag, false) == [];
    assert FindIndex((e: Expr) => e.Number?, [x]) == None;
    assert FindIndex((e: Expr) => e.Number?, zero) == Some(0);
    assert [] + [x] == [x];
    assert zero + [] == zero;
    ShortProduct([x], fuel);
    ShortProduct(zero, fuel);
    IdenticalToNumber(x, 0.0);
  }

  lemma DivisionByZeroRaised(x: Expr, fuel: nat)
    requires IsAtom(x)
    requires fuel >= 2
    ensures Simplify(Fraction(x, Number(0.0)), fuel) == Err(DivisionByZero)
  {
    SimplifyLeavesAtomsUnchanged(x, fuel - 1);
    SimplifyLeavesAtomsUnchanged(Number(0.0), fuel - 1);
    AtomOverZeroReduces(x, fuel - 1);
    FractionOfSimplified(x, Number(0.0), x, Number(0.0), fuel);
  }

  /** `x / 1` is `x` for an atom `x`. */
  lemma AtomOverOneReduces(x: Expr, fuel: nat)
    requires IsAtom(x)
    requires fuel >= 1
    ensures ReduceFraction(x, Number(1.0), fuel) == Ok(x)
  {
    var one := [Number(1.0)];
    assert [x][1..] == [] && one[1..] == [];
    assert FilterKind([x], NumberTag, false) == [x];
    assert FilterKind(one, NumberTag, false) == [];
    assert FindIndex((e: Expr) => e.Number?, [x]) == None;
    assert FindIndex((e: Expr) => e.Number?, one) == Some(0);
    assert [] + [x] == [x];
    assert one + [] == one;
    ShortProduct([x], fuel);
    ShortProduct(one, fuel);
    IdenticalToNumber(x, 0.0);
  }

  /** `x / x` cancels to 1 for an atom `x`: the exponents 1 and 1 leave the difference 0
      (test "a / a"). */
  lemma AtomOverItselfReduces(x: Expr, fuel: nat)
    requires IsAtom(x)
    requires fuel >= 2
    ensures ReduceFraction(x, x, fuel) == Ok(Number(1.0))
  {
    assert [x][1..] == [];
    assert FilterKind([x], NumberTag, false) == [x];
    assert FindIndex((e: Expr) => e.Number?, [x]) == None;
    assert ReduceStep([x], [], [x], fuel) == Ok(([], [])) by {
      IdenticalReflexive(x);
      assert Base(x) == x && Exponent(x) == Number(1.0);
      assert FindIndex((f: Expr) => Identical(x, Base(f)), [x]) == Some(0);
      SubtractionOfNumbers(1.0, 1.0, fuel);
      assert RemoveAt([x], 0) == [];
      assert ReduceStep([x][1..], [], [], fuel) == Ok(([], []));
    }
    var none: seq<Expr> := [];
    assert none + none == none;
    ShortProduct([], fuel);
  }

  lemma QuotientOfItself(x: Expr, fuel: nat)
    requires IsAtom(x)
    requires fuel >= 3
    ensures Simplify(Fraction(x, x), fuel) == Ok(Number(1.0))
  {
    SimplifyLeavesAtomsUnchanged(x, fuel - 1);
    AtomOverItselfReduces(x, fuel - 1);
    FractionOfSimplified(x, x, x, x, fuel);
  }
}
