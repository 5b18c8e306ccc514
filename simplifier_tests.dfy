/** The remaining equalities of src/math/expression.test.js:83-97: each side is parsed as
    the parser would build it and both sides simplify to the same tree. */
module SimplifierTests {
  import opened Wrappers
  import opened Expression
  import opened Simplifier
  import opened SimplifierExamples
  import opened SimplifierFractions

  /** A leaf `simplify` hands back unchanged: a number or an atom. */
  predicate IsLeaf(x: Expr)
  {
    x.Number? || IsAtom(x)
  }

  lemma {:induction false} LeavesSimplified(s: seq<Expr>, fuel: nat)
    requires forall i :: 0 <= i < |s| ==> IsLeaf(s[i])
    ensures MapSimplify(s, fuel) == Ok(s)
  {
    if s != [] {
      assert forall i :: 1 <= i < |s| ==> s[1..][i - 1] == s[i];
      LeavesSimplified(s[1..], fuel);
      assert Simplify(s[0], fuel) == Ok(s[0]);
      assert [s[0]] + s[1..] == s;
    }
  }

  // ---------------------------------------------------------------------------
  // `0 + a`, `0 * a`, `1 * a`

  /** The number of `[n, x]` is folded apart from the non-numeric summand `x`. */
  lemma CombineSummandsNumberAndTerm(c: real, x: Expr, fuel: nat)
    requires !x.Number?
    ensures CombineSummands([Number(c), x], fuel) == SumWithConstant([x], Number(c), fuel)
  {
    var summands := [Number(c), x];
    assert summands[1..] == [x];
    assert [x][1..] == [];
    assert FilterKind(summands, NumberTag, false) == [x] by {
      assert FilterKind([x], NumberTag, false) == [x];
    }
    assert FilterKind(summands, NumberTag, true) == [Number(c)] by {
      assert FilterKind([x], NumberTag, true) == [];
    }
    assert SumValues([Number(c)]) == c by {
      assert [Number(c)][1..] == [];
    }
  }

  /** A lone atom is one term with coefficient 1, and combines back into itself. */
  lemma LoneAtomTerms(x: Expr, fuel: nat)
    requires IsAtom(x)
    requires fuel >= 2
    ensures CoefficientTerms([x]) == Ok([Term(Number(1.0), x)])
    ensures CombineElements([Term(Number(1.0), x)], SumNode, fuel) == Ok([x])
  {
    var t := Term(Number(1.0), x);
    assert CoefficientTerm(x) == Some(t);
    assert [x][1..] == [];
    assert CoefficientTerms([x][1..]) == Ok([]);
    assert [t] + [] == [t];
    ScaledAtom(1.0, x, fuel);
    assert [t][1..] == [];
    assert LikeTerms([], x) == [] && UnlikeTerms([], x) == [];
    assert CombineElements([], SumNode, fuel) == Ok([]);
    assert [x] + [] == [x];
  }

  /** A lone atom with the number `c`: the atom itself when `c` is zero, else `x + c`. */
  lemma AtomPlusConstant(c: real, x: Expr, fuel: nat)
    requires IsAtom(x)
    requires fuel >= 2
    ensures SumWithConstant([x], Number(c), fuel) == Ok(if c == 0.0 then x else Sum([x, Number(c)]))
  {
    LoneAtomTerms(x, fuel);
    var all := [x] + [Number(c)];
    assert all == [x, Number(c)];
    assert all[1..] == [Number(c)];
    assert [Number(c)][1..] == [];
    IdenticalToNumber(x, 0.0);
    IdenticalToNumber(Number(c), 0.0);
    assert WithoutIdenticalTo(all, 0.0) == if c == 0.0 then [x] else all;
  }

  /** `0 + a` simplifies to `a`. */
  lemma ZeroPlusAtom(a: string, fuel: nat)
    requires fuel >= 3
    ensures Simplify(Sum([Number(0.0), Identifier(a)]), fuel) == Ok(Identifier(a))
  {
    var x := Identifier(a);
    var f := fuel - 1;
    assert Simplify(x, f) == Ok(x) && Simplify(Number(0.0), f) == Ok(Number(0.0));
    calc {
      Simplify(Sum([Number(0.0), x]), fuel);
    == { SumOfPair(Number(0.0), x, Number(0.0), x, f); }
      CombineSummands([Number(0.0), x], f);
    == { CombineSummandsNumberAndTerm(0.0, x, f); }
      SumWithConstant([x], Number(0.0), f);
    == { AtomPlusConstant(0.0, x, f); }
      Ok(x);
    }
  }

  /** `0 * a` simplifies to `0` and `1 * a` to `a`. */
  lemma ZeroAndOneTimesAtom(a: string, fuel: nat)
    requires fuel >= 2
    ensures Simplify(Product([Number(0.0), Identifier(a)]), fuel) == Ok(Number(0.0))
    ensures Simplify(Product([Number(1.0), Identifier(a)]), fuel) == Ok(Identifier(a))
  {
    ScaledAtom(0.0, Identifier(a), fuel);
    ScaledAtom(1.0, Identifier(a), fuel);
  }

  // ---------------------------------------------------------------------------
  // `a - 2 * a` and `-a`

  lemma FlattenNegatedProduct(c: real, x: Expr)
    requires IsAtom(x)
    ensures FlattenList(ProductNode, [Number(-1.0), Product([Number(c), x])]) == [Number(-1.0), Number(c), x]
  {
    var inner := [Number(c), x];
    assert [Number(-1.0), Product(inner)][1..] == [Product(inner)];
    assert [Product(inner)][1..] == [];
    FlattenPair(ProductNode, Number(c), x);
    assert Flatten(ProductNode, Product(inner)) == inner;
    assert FlattenList(ProductNode, [Product(inner)]) == inner;
    assert [Number(-1.0)] + inner == [Number(-1.0), Number(c), x];
  }

  /** The factors `-1, n, x` fold their numbers to `-n`. */
  lemma NegatedFactorsCombined(c: real, x: Expr, f: nat)
    requires IsAtom(x)
    ensures MultiplyFactors([Number(-1.0), Number(c), x], f) == ProductWithConstant([x], Number(-c), f)
  {
    var inner := [Number(c), x];
    var factors := [Number(-1.0), Number(c), x];
    assert factors[1..] == inner && inner[1..] == [x] && [x][1..] == [];
    assert !HasFraction(factors);
    assert FilterKind(factors, SumTag, true) == [] by {
      assert FilterKind([x], SumTag, true) == [];
      assert FilterKind(inner, SumTag, true) == [];
    }
    assert FilterKind(factors, NumberTag, false) == [x] by {
      assert FilterKind([x], NumberTag, false) == [x];
      assert FilterKind(inner, NumberTag, false) == [x];
    }
    assert FilterKind(factors, NumberTag, true) == [Number(-1.0), Number(c)] by {
      assert FilterKind([x], NumberTag, true) == [];
      assert FilterKind(inner, NumberTag, true) == [Number(c)];
    }
    assert ProductValues([Number(-1.0), Number(c)]) == -c by {
      assert [Number(-1.0), Number(c)][1..] == [Number(c)];
      assert [Number(c)][1..] == [];
      assert ProductValues([Number(c)]) == c * 1.0;
    }
  }

  /** `-(n * x)` flattens to the factors `-1, n, x`, whose numbers fold to `-n`. */
  lemma NegatedScaledAtom(c: real, x: Expr, fuel: nat)
    requires IsAtom(x)
    requires fuel >= 2
    ensures Simplify(Product([Number(-1.0), Product([Number(c), x])]), fuel) ==
            Ok(if c == 0.0 then Number(0.0) else if c == -1.0 then x else Product([x, Number(-c)]))
  {
    var f := fuel - 1;
    var factors := [Number(-1.0), Number(c), x];
    FlattenNegatedProduct(c, x);
    LeavesSimplified(factors, f);
    assert SimplifyProduct(Product([Number(-1.0), Product([Number(c), x])]), f) == MultiplyFactors(factors, f);
    NegatedFactorsCombined(c, x, f);
    AtomWithConstant(-c, x, f);
  }

  /** `x` and `x * -2` merge into `x * -1`. */
  lemma AtomMinusDoubledAtom(x: Expr, f: nat)
    requires IsAtom(x) && f >= 2
    ensures SumWithConstant([x, Product([x, Number(-2.0)])], Number(0.0), f) == Ok(Product([x, Number(-1.0)]))
  {
    var e := Product([x, Number(-1.0)]);
    AtomMinusDoubledTerms(x, f);
    assert WithoutIdenticalTo([e] + [Number(0.0)], 0.0) == [e] by {
      assert [e] + [Number(0.0)] == [e, Number(0.0)];
      assert [e, Number(0.0)][1..] == [Number(0.0)];
      assert [Number(0.0)][1..] == [];
      IdenticalToNumber(e, 0.0);
    }
  }

  /** The coefficients 1 and -2 of `x` add up to -1. */
  lemma AtomMinusDoubledTerms(x: Expr, f: nat)
    requires IsAtom(x) && f >= 2
    ensures CoefficientTerms([x, Product([x, Number(-2.0)])]) == Ok([Term(Number(1.0), x), Term(Number(-2.0), x)])
    ensures CombineElements([Term(Number(1.0), x), Term(Number(-2.0), x)], SumNode, f) == Ok([Product([x, Number(-1.0)])])
  {
    var t1, t2 := Term(Number(1.0), x), Term(Number(-2.0), x);
    assert CoefficientTerm(x) == Some(t1);
    CoefficientOfScaled(x, -2.0);
    CoefficientTermsPair(x, Product([x, Number(-2.0)]), t1, t2);
    IdenticalReflexive(x);
    SumOfTwo(1.0, -2.0, f);
    ScaledAtom(-1.0, x, f);
    CombineTwoLikeTerms(t1, t2, SumNode, Number(-1.0), Product([x, Number(-1.0)]), f);
  }

  /** `a - 2 * a` and `-a` both simplify to `a * -1`. */
  lemma SubtractingDouble(a: string, fuel: nat)
    requires fuel >= 3
    ensures Simplify(Subtraction(Identifier(a), Product([Number(2.0), Identifier(a)])), fuel) ==
            Ok(Product([Identifier(a), Number(-1.0)]))
    ensures Simplify(Product([Number(-1.0), Identifier(a)]), fuel) == Ok(Product([Identifier(a), Number(-1.0)]))
  {
    var x := Identifier(a);
    var f := fuel - 1;
    var negated := Product([Number(-1.0), Product([Number(2.0), x])]);
    ScaledAtom(-1.0, x, fuel);
    NegatedScaledAtom(2.0, x, f);
    SumOfTwoTerms(x, negated, x, Product([x, Number(-2.0)]), f);
    AtomMinusDoubledAtom(x, f);
  }

  // ---------------------------------------------------------------------------
  // `a * a / a` and `b / (a / a)`

  /** The number of `[x, n]` is folded apart from the non-numeric `x`. */
  lemma CombineFactorsTermAndNumber(c: real, x: Expr, fuel: nat)
    requires !x.Number?
    ensures CombineFactors([x, Number(c)], fuel) == ProductWithConstant([x], Number(c), fuel)
  {
    var factors := [x, Number(c)];
    assert factors[1..] == [Number(c)];
    assert [Number(c)][1..] == [];
    assert FilterKind(factors, NumberTag, false) == [x] by {
      assert FilterKind([Number(c)], NumberTag, false) == [];
    }
    assert FilterKind(factors, NumberTag, true) == [Number(c)] by {
      assert FilterKind([Number(c)], NumberTag, true) == [Number(c)];
    }
    assert ProductValues([Number(c)]) == c by {
      assert ProductValues([Number(c)]) == c * 1.0;
    }
  }

  /** `a * a / a`, which parses as `a * (a / a)`, simplifies to `a`. */
  lemma ProductWithQuotientOfItself(a: string, fuel: nat)
    requires fuel >= 4
    ensures Simplify(Product([Identifier(a), Fraction(Identifier(a), Identifier(a))]), fuel) == Ok(Identifier(a))
  {
    var x := Identifier(a);
    var f := fuel - 1;
    QuotientOfItself(x, f);
    assert Simplify(x, f) == Ok(x);
    ProductOfTwoTerms(x, Fraction(x, x), x, Number(1.0), f);
    CombineFactorsTermAndNumber(1.0, x, f);
    AtomWithConstant(1.0, x, f);
  }

  /** `b / (a / a)` simplifies to `b`. */
  lemma OverQuotientOfItself(a: string, b: string, fuel: nat)
    requires fuel >= 4
    ensures Simplify(Fraction(Identifier(b), Fraction(Identifier(a), Identifier(a))), fuel) == Ok(Identifier(b))
  {
    var x, y := Identifier(a), Identifier(b);
    QuotientOfItself(x, fuel - 1);
    assert Simplify(y, fuel - 1) == Ok(y);
    FractionOfSimplified(y, Fraction(x, x), y, Number(1.0), fuel);
    AtomOverOneReduces(y, fuel - 1);
  }

  // ---------------------------------------------------------------------------
  // `(a / b) / (c / d)` and `(a * d) / (b * c)`

  /** Two different atoms stay two elements, each the power 1 of itself. */
  lemma DistinctAtomsCombined(x: Expr, y: Expr, fuel: nat)
    requires IsAtom(x) && IsAtom(y) && !Identical(x, y) && !Identical(y, x)
    requires fuel >= 1
    ensures CombineElements(ExponentTerms([x, y]), ProductNode, fuel) == Ok([x, y])
  {
    var tx, ty := Term(Number(1.0), x), Term(Number(1.0), y);
    assert ExponentTerms([x, y]) == [tx, ty];
    assert [tx, ty][1..] == [ty] && [ty][1..] == [];
    PowerOfOne(x, fuel);
    PowerOfOne(y, fuel);
    assert LikeTerms([ty], x) == [] by {
      assert LikeTerms([ty][1..], x) == [];
    }
    assert UnlikeTerms([ty], x) == [ty] by {
      assert UnlikeTerms([ty][1..], x) == [];
    }
    assert CombineElements([ty], ProductNode, fuel) == Ok([y]) by {
      assert LikeTerms([], y) == [] && UnlikeTerms([], y) == [];
      assert CombineElements([], ProductNode, fuel) == Ok([]);
      assert [y] + [] == [y];
    }
    assert [x] + [y] == [x, y];
  }

  /** The product of two different atoms simplifies to itself. */
  lemma DistinctAtomsProduct(x: Expr, y: Expr, fuel: nat)
    requires IsAtom(x) && IsAtom(y) && !Identical(x, y) && !Identical(y, x)
    requires fuel >= 2
    ensures Simplify(Product([x, y]), fuel) == Ok(Product([x, y]))
  {
    var f := fuel - 1;
    assert Simplify(x, f) == Ok(x) && Simplify(y, f) == Ok(y);
    ProductOfTwoTerms(x, y, x, y, f);
    CombineFactorsWithoutNumbers(x, y, f);
    DistinctAtomsWithOne(x, y, f);
  }

  lemma DistinctAtomsWithOne(x: Expr, y: Expr, fuel: nat)
    requires IsAtom(x) && IsAtom(y) && !Identical(x, y) && !Identical(y, x)
    requires fuel >= 1
    ensures ProductWithConstant([x, y], Number(1.0), fuel) == Ok(Product([x, y]))
  {
    DistinctAtomsCombined(x, y, fuel);
    TwoAtomsAndOne(x, y);
  }

  /** Two atoms and a factor of one: no zero, and the one drops out. */
  lemma TwoAtomsAndOne(x: Expr, y: Expr)
    requires IsAtom(x) && IsAtom(y)
    ensures !AnyIdenticalTo([x, y] + [Number(1.0)], 0.0)
    ensures WithoutIdenticalTo([x, y] + [Number(1.0)], 1.0) == [x, y]
  {
    var all := [x, y] + [Number(1.0)];
    assert all == [x, y, Number(1.0)];
    assert all[1..] == [y, Number(1.0)] && [y, Number(1.0)][1..] == [Number(1.0)] && [Number(1.0)][1..] == [];
    AnyIdenticalToIsMembership(all, 0.0);
    IdenticalToNumber(x, 1.0);
    IdenticalToNumber(y, 1.0);
    IdenticalToNumber(Number(1.0), 1.0);
    assert WithoutIdenticalTo([Number(1.0)], 1.0) == [];
    assert WithoutIdenticalTo([y, Number(1.0)], 1.0) == [y];
    assert WithoutIdenticalTo(all, 1.0) == [x] + [y];
  }

  /** The quotient of two different atoms simplifies to itself. */
  lemma DistinctAtomsQuotient(x: Expr, y: Expr, fuel: nat)
    requires IsAtom(x) && IsAtom(y) && !Identical(x, y)
    requires fuel >= 2
    ensures Simplify(Fraction(x, y), fuel) == Ok(Fraction(x, y))
  {
    var f := fuel - 1;
    assert Simplify(x, f) == Ok(x) && Simplify(y, f) == Ok(y);
    FractionOfSimplified(x, y, x, y, fuel);
    assert ReduceStep([x], [], [y], f) == Ok(([x], [y])) by {
      ReduceFactorWithoutMatch(x, [], [y], f);
      assert [] + [x] == [x] && [x][1..] == [];
    }
    ShortProduct([x], f);
    ShortProduct([y], f);
    ReduceWithoutNumbers(x, y, f, [x], [y], x, y);
    IdenticalToNumber(x, 0.0);
    IdenticalToNumber(y, 0.0);
    IdenticalToNumber(y, 1.0);
  }

  /** Nothing cancels between `u * v` and `w * z` when no factor of the one is the other's. */
  lemma DistinctPairsReduce(u: Expr, v: Expr, w: Expr, z: Expr, fuel: nat)
    requires IsAtom(u) && IsAtom(v) && IsAtom(w) && IsAtom(z)
    requires !Identical(u, v) && !Identical(v, u) && !Identical(w, z) && !Identical(z, w)
    requires !Identical(u, w) && !Identical(u, z) && !Identical(v, w) && !Identical(v, z)
    requires fuel >= 2
    ensures ReduceFraction(Product([u, v]), Product([w, z]), fuel) == Ok(Fraction(Product([u, v]), Product([w, z])))
  {
    var top, bottom := Product([u, v]), Product([w, z]);
    assert ReduceStep([u, v], [], [w, z], fuel) == Ok(([u, v], [w, z])) by {
      var d := [w, z];
      assert Base(u) == u && Base(v) == v && Base(w) == w && Base(z) == z;
      assert forall j :: 0 <= j < |d| ==> !Identical(Base(u), Base(d[j]));
      assert forall j :: 0 <= j < |d| ==> !Identical(Base(v), Base(d[j]));
      ReduceFactorWithoutMatch(u, [], d, fuel);
      ReduceFactorWithoutMatch(v, [u], d, fuel);
      assert [] + [u] == [u] && [u] + [v] == [u, v];
      assert [u, v][1..] == [v] && [v][1..] == [];
      assert ReduceStep([v], [u], d, fuel) == ReduceStep([], [u, v], d, fuel);
    }
    DistinctAtomsProduct(u, v, fuel);
    DistinctAtomsProduct(w, z, fuel);
    ReduceWithoutNumbers(top, bottom, fuel, [u, v], [w, z], top, bottom);
    IdenticalToNumber(top, 0.0);
    IdenticalToNumber(bottom, 0.0);
    IdenticalToNumber(bottom, 1.0);
  }

  /** `(a / b) / (c / d)` and `(a * d) / (b * c)` simplify to the same fraction, for four
      different names. */
  lemma QuotientOfQuotientsSimplified(a: string, b: string, c: string, d: string, fuel: nat)
    requires a != b && a != c && a != d && b != c && b != d && c != d
    requires fuel >= 3
    ensures Simplify(Fraction(Fraction(Identifier(a), Identifier(b)), Fraction(Identifier(c), Identifier(d))), fuel) ==
            Ok(Fraction(Product([Identifier(a), Identifier(d)]), Product([Identifier(b), Identifier(c)])))
    ensures Simplify(Fraction(Product([Identifier(a), Identifier(d)]), Product([Identifier(b), Identifier(c)])), fuel) ==
            Ok(Fraction(Product([Identifier(a), Identifier(d)]), Product([Identifier(b), Identifier(c)])))
  {
    var xa, xb, xc, xd := Identifier(a), Identifier(b), Identifier(c), Identifier(d);
    var f := fuel - 1;
    var top, bottom := Product([xa, xd]), Product([xb, xc]);
    DistinctAtomsQuotient(xa, xb, f);
    DistinctAtomsQuotient(xc, xd, f);
    DistinctAtomsProduct(xa, xd, f);
    DistinctAtomsProduct(xb, xc, f);
    assert [xa] + [xd] == [xa, xd] && [xb] + [xc] == [xb, xc];
    assert CollapseNested(Fraction(xa, xb), Fraction(xc, xd)) == ([xa, xd], [xb, xc]);
    DistinctPairsReduce(xa, xd, xb, xc, f);
    FractionOfSimplified(top, bottom, top, bottom, fuel);
  }

  // ---------------------------------------------------------------------------
  // `a / (a * a * a)`, `1 / (a * a)`, `a * (1 / (a * a))` and `1 / a`

  /** Two factors without numbers fold the number 1. */
  lemma CombineFactorsWithoutNumbers(u: Expr, v: Expr, fuel: nat)
    requires !u.Number? && !v.Number?
    ensures CombineFactors([u, v], fuel) == ProductWithConstant([u, v], Number(1.0), fuel)
  {
    assert [u, v][1..] == [v] && [v][1..] == [];
    assert FilterKind([u, v], NumberTag, false) == [u, v] by {
      assert FilterKind([v], NumberTag, false) == [v];
    }
    assert FilterKind([u, v], NumberTag, true) == [] by {
      assert FilterKind([v], NumberTag, true) == [];
    }
  }

  /** Factors merged into one non-numeric element keep it alone next to the number 1. */
  lemma SingleElementWithOne(s: seq<Expr>, p: Expr, fuel: nat)
    requires s != [] && !p.Number?
    requires CombineElements(ExponentTerms(s), ProductNode, fuel) == Ok([p])
    ensures ProductWithConstant(s, Number(1.0), fuel) == Ok(p)
  {
    var all := [p] + [Number(1.0)];
    assert all == [p, Number(1.0)];
    assert all[1..] == [Number(1.0)] && [Number(1.0)][1..] == [];
    AnyIdenticalToIsMembership(all, 0.0);
    IdenticalToNumber(p, 1.0);
    IdenticalToNumber(Number(1.0), 1.0);
    assert WithoutIdenticalTo([Number(1.0)], 1.0) == [];
    assert WithoutIdenticalTo(all, 1.0) == [p];
  }

  /** `x` and `x` merge into `x ^ 2`. */
  lemma TwoLikeAtomsCombined(x: Expr, fuel: nat)
    requires IsAtom(x) && fuel >= 1
    ensures CombineElements(ExponentTerms([x, x]), ProductNode, fuel) == Ok([Power(x, Number(2.0))])
  {
    var t := Term(Number(1.0), x);
    assert ExponentTerms([x, x]) == [t, t];
    IdenticalReflexive(x);
    SumOfTwo(1.0, 1.0, fuel);
    PowerOfAtom(x, 2.0, fuel);
    CombineTwoLikeTerms(t, t, ProductNode, Number(2.0), Power(x, Number(2.0)), fuel);
  }

  /** `x`, `x` and `x` merge into `x ^ 3`: the exponents are folded 1 + 1, then + 1. */
  lemma ThreeLikeAtomsCombined(x: Expr, fuel: nat)
    requires IsAtom(x) && fuel >= 1
    ensures CombineElements(ExponentTerms([x, x, x]), ProductNode, fuel) == Ok([Power(x, Number(3.0))])
  {
    var t := Term(Number(1.0), x);
    assert ExponentTerms([x, x, x]) == [t, t, t];
    assert [t, t, t][1..] == [t, t] && [t, t][1..] == [t] && [t][1..] == [];
    IdenticalReflexive(x);
    assert LikeTerms([t, t], x) == [t, t] by {
      assert LikeTerms([t], x) == [t] by {
        assert LikeTerms([t][1..], x) == [];
      }
    }
    assert UnlikeTerms([t, t], x) == [] by {
      assert UnlikeTerms([t], x) == [] by {
        assert UnlikeTerms([t][1..], x) == [];
      }
    }
    SumOfTwo(1.0, 1.0, fuel);
    SumOfTwo(2.0, 1.0, fuel);
    assert FoldCoefficients([t, t], Number(1.0), fuel) == Ok(Number(3.0)) by {
      assert FoldCoefficients([t], Number(2.0), fuel) == Ok(Number(3.0)) by {
        assert FoldCoefficients([t][1..], Number(3.0), fuel) == Ok(Number(3.0));
      }
    }
    PowerOfAtom(x, 3.0, fuel);
    assert CombineElements([], ProductNode, fuel) == Ok([]);
    assert [Power(x, Number(3.0))] + [] == [Power(x, Number(3.0))];
  }

  /** `a * a` simplifies to `a ^ 2`. */
  lemma AtomSquared(x: Expr, fuel: nat)
    requires IsAtom(x) && fuel >= 2
    ensures Simplify(Product([x, x]), fuel) == Ok(Power(x, Number(2.0)))
  {
    var f := fuel - 1;
    assert Simplify(x, f) == Ok(x);
    ProductOfTwoTerms(x, x, x, x, f);
    CombineFactorsWithoutNumbers(x, x, f);
    TwoLikeAtomsCombined(x, f);
    SingleElementWithOne([x, x], Power(x, Number(2.0)), f);
  }

  /** The three factors of `a * a * a`, which parses as `a * (a * a)`. */
  lemma ThreeFactorsCombined(x: Expr, f: nat)
    requires IsAtom(x)
    ensures MultiplyFactors([x, x, x], f) == ProductWithConstant([x, x, x], Number(1.0), f)
  {
    ThreeAtomsFiltered(x);
  }

  /** Three atoms: no fraction, no sum, no number among them. */
  lemma ThreeAtomsFiltered(x: Expr)
    requires IsAtom(x)
    ensures !HasFraction([x, x, x])
    ensures FilterKind([x, x, x], SumTag, true) == []
    ensures FilterKind([x, x, x], NumberTag, false) == [x, x, x]
    ensures FilterKind([x, x, x], NumberTag, true) == []
  {
    var factors := [x, x, x];
    assert factors[1..] == [x, x] && [x, x][1..] == [x] && [x][1..] == [];
    assert !HasFraction(factors);
    assert FilterKind(factors, SumTag, true) == [] by {
      assert FilterKind([x], SumTag, true) == [];
      assert FilterKind([x, x], SumTag, true) == [];
    }
    assert FilterKind(factors, NumberTag, false) == factors by {
      assert FilterKind([x], NumberTag, false) == [x];
      assert FilterKind([x, x], NumberTag, false) == [x, x];
    }
    assert FilterKind(factors, NumberTag, true) == [] by {
      assert FilterKind([x], NumberTag, true) == [];
      assert FilterKind([x, x], NumberTag, true) == [];
    }
  }

  /** `a * a * a` simplifies to `a ^ 3`. */
  lemma AtomCubed(x: Expr, fuel: nat)
    requires IsAtom(x) && fuel >= 2
    ensures Simplify(Product([x, Product([x, x])]), fuel) == Ok(Power(x, Number(3.0)))
  {
    var f := fuel - 1;
    var factors := [x, x, x];
    FlattenAtomTimesPair(x, x);
    LeavesSimplified(factors, f);
    ProductOfSimplified([x, Product([x, x])], fuel, factors);
    ThreeFactorsCombined(x, f);
    ThreeLikeAtomsCombined(x, f);
    SingleElementWithOne(factors, Power(x, Number(3.0)), f);
  }

  /** `1 / d` for a single factor `d` that is not a number is left as it is. */
  lemma OneOverReduces(d: Expr, fuel: nat)
    requires !d.Number? && !d.Product?
    requires fuel >= 1
    ensures ReduceFraction(Number(1.0), d, fuel) == Ok(Fraction(Number(1.0), d))
  {
    assert Factors(Number(1.0)) == [Number(1.0)] && Factors(d) == [d];
    assert FilterKind([Number(1.0)], NumberTag, false) == [] by {
      assert FilterKind([Number(1.0)][1..], NumberTag, false) == [];
    }
    assert FilterKind([d], NumberTag, false) == [d] by {
      assert FilterKind([d][1..], NumberTag, false) == [];
    }
    assert FindIndex((e: Expr) => e.Number?, [Number(1.0)]) == Some(0);
    assert FindIndex((e: Expr) => e.Number?, [d]) == None;
    var none: seq<Expr> := [];
    assert [Number(1.0)] + none == [Number(1.0)] && none + [d] == [d];
    ShortProduct([Number(1.0)], fuel);
    ShortProduct([d], fuel);
    IdenticalToNumber(d, 0.0);
    IdenticalToNumber(d, 1.0);
  }

  /** `1 / (a * a)` simplifies to `1 / a ^ 2`. */
  lemma OneOverSquare(x: Expr, fuel: nat)
    requires IsAtom(x) && fuel >= 3
    ensures Simplify(Fraction(Number(1.0), Product([x, x])), fuel) == Ok(Fraction(Number(1.0), Power(x, Number(2.0))))
  {
    AtomSquared(x, fuel - 1);
    FractionOfSimplified(Number(1.0), Product([x, x]), Number(1.0), Power(x, Number(2.0)), fuel);
    OneOverReduces(Power(x, Number(2.0)), fuel - 1);
  }

  /** `a / (a * a * a)` and `1 / (a * a)` both simplify to `1 / a ^ 2`. */
  lemma AtomOverCubeSimplified(a: string, fuel: nat)
    requires fuel >= 3
    ensures Simplify(Fraction(Identifier(a), Product([Identifier(a), Product([Identifier(a), Identifier(a)])])), fuel) ==
            Ok(Fraction(Number(1.0), Power(Identifier(a), Number(2.0))))
    ensures Simplify(Fraction(Number(1.0), Product([Identifier(a), Identifier(a)])), fuel) ==
            Ok(Fraction(Number(1.0), Power(Identifier(a), Number(2.0))))
  {
    var x := Identifier(a);
    var cube := Product([x, Product([x, x])]);
    assert Simplify(x, fuel - 1) == Ok(x);
    AtomCubed(x, fuel - 1);
    FractionOfSimplified(x, cube, x, Power(x, Number(3.0)), fuel);
    AtomOverCubeReduces(x, fuel - 1);
    OneOverSquare(x, fuel);
  }

  /** `x / x^2` reduces to `1 / x`. */
  lemma AtomOverSquareReduces(x: Expr, fuel: nat)
    requires IsAtom(x)
    requires fuel >= 2
    ensures ReduceFraction(x, Power(x, Number(2.0)), fuel) == Ok(Fraction(Number(1.0), x))
  {
    var square := Power(x, Number(2.0));
    AtomOverSquareStep(x, fuel);
    ShortProduct([x], fuel);
    ShortProduct([], fuel);
    ReduceWithoutNumbers(x, square, fuel, [], [x], Number(1.0), x);
    IdenticalToNumber(x, 0.0);
    IdenticalToNumber(x, 1.0);
  }

  /** The fraction factor of `x * (1 / x^2)` is pulled together into `(1 * x) / x^2`. */
  lemma TimesOneOverSquare(x: Expr, f: nat)
    requires IsAtom(x)
    ensures MultiplyFactors([x, Fraction(Number(1.0), Power(x, Number(2.0)))], f) ==
            Simplify(Fraction(Product([Number(1.0), x]), Product([Power(x, Number(2.0))])), f)
  {
    var q := Fraction(Number(1.0), Power(x, Number(2.0)));
    assert [x, q][1..] == [q] && [q][1..] == [];
    assert HasFraction([x, q]) by {
      assert [x, q][1].Fraction?;
    }
    assert FilterKind([x, q], FractionTag, true) == [q] by {
      assert FilterKind([q], FractionTag, true) == [q];
    }
    assert FilterKind([x, q], FractionTag, false) == [x] by {
      assert FilterKind([q], FractionTag, false) == [];
    }
    assert Numerators([q]) == [Number(1.0)] && Denominators([q]) == [Power(x, Number(2.0))];
    assert [Number(1.0)] + [x] == [Number(1.0), x];
  }

  /** `a * (1 / (a * a))` and `1 / a` both simplify to `1 / a`. */
  lemma AtomTimesOneOverSquare(a: string, fuel: nat)
    requires fuel >= 4
    ensures Simplify(Product([Identifier(a), Fraction(Number(1.0), Product([Identifier(a), Identifier(a)]))]), fuel) ==
            Ok(Fraction(Number(1.0), Identifier(a)))
    ensures Simplify(Fraction(Number(1.0), Identifier(a)), fuel) == Ok(Fraction(Number(1.0), Identifier(a)))
  {
    var x := Identifier(a);
    var f := fuel - 1;
    var square := Power(x, Number(2.0));
    AtomTimesOneOverSquareMultiplies(x, fuel);
    TimesOneOverSquare(x, f);
    ScaledAtom(1.0, x, f - 1);
    ShortProduct([square], f - 1);
    FractionOfSimplified(Product([Number(1.0), x]), Product([square]), x, square, f);
    AtomOverSquareReduces(x, f - 1);
    OneOverAtomSimplified(x, fuel);
  }

  /** `a * (1 / (a * a))` has two factors, the second simplified to `1 / a^2`, and goes to
      multiplying. */
  lemma AtomTimesOneOverSquareMultiplies(x: Expr, fuel: nat)
    requires IsAtom(x) && fuel >= 4
    ensures Simplify(Product([x, Fraction(Number(1.0), Product([x, x]))]), fuel) ==
            MultiplyFactors([x, Fraction(Number(1.0), Power(x, Number(2.0)))], fuel - 1)
  {
    var f := fuel - 1;
    var q := Fraction(Number(1.0), Product([x, x]));
    FlattenPair(ProductNode, x, q);
    assert Simplify(x, f) == Ok(x);
    OneOverSquare(x, f);
    MapSimplifyPair(x, q, x, Fraction(Number(1.0), Power(x, Number(2.0))), f);
    ProductOfSimplified([x, q], fuel, [x, Fraction(Number(1.0), Power(x, Number(2.0)))]);
  }

  /** `1 / a` is already simplified. */
  lemma OneOverAtomSimplified(x: Expr, fuel: nat)
    requires IsAtom(x) && fuel >= 2
    ensures Simplify(Fraction(Number(1.0), x), fuel) == Ok(Fraction(Number(1.0), x))
  {
    assert Simplify(Number(1.0), fuel - 1) == Ok(Number(1.0));
    FractionOfSimplified(Number(1.0), x, Number(1.0), x, fuel);
    OneOverReduces(x, fuel - 1);
  }

  // ---------------------------------------------------------------------------
  // `a * a * (1 / (a * a * a))`

  lemma MapSimplifyCons(u: Expr, rest: seq<Expr>, u': Expr, rest': seq<Expr>, fuel: nat)
    requires Simplify(u, fuel) == Ok(u') && MapSimplify(rest, fuel) == Ok(rest')
    ensures MapSimplify([u] + rest, fuel) == Ok([u'] + rest')
  {
    assert ([u] + rest)[1..] == rest;
  }

  /** `1 / (a * a * a)` simplifies to `1 / a ^ 3`. */
  lemma OneOverCube(x: Expr, fuel: nat)
    requires IsAtom(x) && fuel >= 3
    ensures Simplify(Fraction(Number(1.0), Product([x, Product([x, x])])), fuel) ==
            Ok(Fraction(Number(1.0), Power(x, Number(3.0))))
  {
    AtomCubed(x, fuel - 1);
    FractionOfSimplified(Number(1.0), Product([x, Product([x, x])]), Number(1.0), Power(x, Number(3.0)), fuel);
    OneOverReduces(Power(x, Number(3.0)), fuel - 1);
  }

  /** `1 * a * a` simplifies to `a ^ 2`. */
  lemma OneTimesAtomSquared(x: Expr, fuel: nat)
    requires IsAtom(x) && fuel >= 2
    ensures Simplify(Product([Number(1.0), x, x]), fuel) == Ok(Power(x, Number(2.0)))
  {
    var f := fuel - 1;
    OneTimesAtomSquaredMultiplies(x, fuel);
    OneAndTwoFactorsCombined(x, f);
    TwoLikeAtomsCombined(x, f);
    SingleElementWithOne([x, x], Power(x, Number(2.0)), f);
  }

  /** `1 * x * x` is already flat and simplified, so it goes straight to multiplying. */
  lemma OneTimesAtomSquaredMultiplies(x: Expr, fuel: nat)
    requires IsAtom(x) && fuel >= 1
    ensures Simplify(Product([Number(1.0), x, x]), fuel) == MultiplyFactors([Number(1.0), x, x], fuel - 1)
  {
    var f := fuel - 1;
    var factors := [Number(1.0), x, x];
    assert factors[1..] == [x, x];
    assert FlattenList(ProductNode, factors) == factors by {
      FlattenPair(ProductNode, x, x);
      assert [Number(1.0)] + [x, x] == factors;
    }
    LeavesSimplified(factors, f);
    ProductOfSimplified(factors, fuel, factors);
  }

  /** The factors of `1 * x * x` fold the number 1. */
  lemma OneAndTwoFactorsCombined(x: Expr, f: nat)
    requires IsAtom(x)
    ensures MultiplyFactors([Number(1.0), x, x], f) == ProductWithConstant([x, x], Number(1.0), f)
  {
    var factors := [Number(1.0), x, x];
    assert factors[1..] == [x, x] && [x, x][1..] == [x] && [x][1..] == [];
    assert MultiplyFactors(factors, f) == CombineFactors(factors, f) by {
      assert !HasFraction(factors);
      assert FilterKind(factors, SumTag, true) == [] by {
        assert FilterKind([x], SumTag, true) == [];
        assert FilterKind([x, x], SumTag, true) == [];
      }
    }
    OneAndTwoNumbersFolded(x, f);
  }

  lemma OneAndTwoNumbersFolded(x: Expr, f: nat)
    requires IsAtom(x)
    ensures CombineFactors([Number(1.0), x, x], f) == ProductWithConstant([x, x], Number(1.0), f)
  {
    var factors := [Number(1.0), x, x];
    assert factors[1..] == [x, x] && [x, x][1..] == [x] && [x][1..] == [];
    assert FilterKind(factors, NumberTag, false) == [x, x] by {
      assert FilterKind([x], NumberTag, false) == [x];
      assert FilterKind([x, x], NumberTag, false) == [x, x];
    }
    assert FilterKind(factors, NumberTag, true) == [Number(1.0)] by {
      assert FilterKind([x], NumberTag, true) == [];
      assert FilterKind([x, x], NumberTag, true) == [];
    }
    assert ProductValues([Number(1.0)]) == 1.0 * 1.0 by {
      assert [Number(1.0)][1..] == [];
    }
  }

  /** `x^2 / x^3` reduces to `1 / x`. */
  lemma SquareOverCubeReduces(x: Expr, fuel: nat)
    requires IsAtom(x)
    requires fuel >= 2
    ensures ReduceFraction(Power(x, Number(2.0)), Power(x, Number(3.0)), fuel) == Ok(Fraction(Number(1.0), x))
  {
    var square, cube := Power(x, Number(2.0)), Power(x, Number(3.0));
    SquareOverCubeStep(x, fuel);
    ShortProduct([x], fuel);
    ShortProduct([], fuel);
    ReduceWithoutNumbers(square, cube, fuel, [], [x], Number(1.0), x);
    IdenticalToNumber(x, 0.0);
    IdenticalToNumber(x, 1.0);
  }

  /** The fraction factor of `x * x * (1 / x^3)` is pulled together into `(1 * x * x) / x^3`. */
  lemma TimesTwiceOneOverCube(x: Expr, f: nat)
    requires IsAtom(x)
    ensures MultiplyFactors([x, x, Fraction(Number(1.0), Power(x, Number(3.0)))], f) ==
            Simplify(Fraction(Product([Number(1.0), x, x]), Product([Power(x, Number(3.0))])), f)
  {
    var q := Fraction(Number(1.0), Power(x, Number(3.0)));
    var factors := [x, x, q];
    assert factors[1..] == [x, q] && [x, q][1..] == [q] && [q][1..] == [];
    assert HasFraction(factors) by {
      assert factors[2].Fraction?;
    }
    assert FilterKind(factors, FractionTag, true) == [q] by {
      assert FilterKind([q], FractionTag, true) == [q];
      assert FilterKind([x, q], FractionTag, true) == [q];
    }
    assert FilterKind(factors, FractionTag, false) == [x, x] by {
      assert FilterKind([q], FractionTag, false) == [];
      assert FilterKind([x, q], FractionTag, false) == [x];
    }
    assert Numerators([q]) == [Number(1.0)] && Denominators([q]) == [Power(x, Number(3.0))];
    assert [Number(1.0)] + [x, x] == [Number(1.0), x, x];
  }

  /** `a * a * (1 / (a * a * a))`, which parses as `a * (a * (1 / (a * (a * a))))`,
      simplifies to `1 / a`. */
  lemma SquareTimesOneOverCube(a: string, fuel: nat)
    requires fuel >= 4
    ensures Simplify(Product([Identifier(a), Product([Identifier(a),
              Fraction(Number(1.0), Product([Identifier(a), Product([Identifier(a), Identifier(a)])]))])]), fuel) ==
            Ok(Fraction(Number(1.0), Identifier(a)))
  {
    var x := Identifier(a);
    var f := fuel - 1;
    var cube := Power(x, Number(3.0));
    SquareTimesOneOverCubeMultiplies(x, fuel);
    TimesTwiceOneOverCube(x, f);
    OneTimesAtomSquared(x, f - 1);
    ShortProduct([cube], f - 1);
    FractionOfSimplified(Product([Number(1.0), x, x]), Product([cube]), Power(x, Number(2.0)), cube, f);
    SquareOverCubeReduces(x, f - 1);
  }

  /** `a * (a * (1 / (a * (a * a))))` flattens to three factors, the last simplified to
      `1 / a^3`, and goes to multiplying. */
  lemma SquareTimesOneOverCubeMultiplies(x: Expr, fuel: nat)
    requires IsAtom(x) && fuel >= 4
    ensures var q := Fraction(Number(1.0), Product([x, Product([x, x])]));
            Simplify(Product([x, Product([x, q])]), fuel) ==
            MultiplyFactors([x, x, Fraction(Number(1.0), Power(x, Number(3.0)))], fuel - 1)
  {
    var q := Fraction(Number(1.0), Product([x, Product([x, x])]));
    var q' := Fraction(Number(1.0), Power(x, Number(3.0)));
    FlattenAtomTimesPair(x, q);
    SquareTimesOneOverCubeFactors(x, fuel - 1);
    ProductOfSimplified([x, Product([x, q])], fuel, [x, x, q']);
  }

  lemma FlattenAtomTimesPair(x: Expr, q: Expr)
    requires IsAtom(x) && !q.Product?
    ensures FlattenList(ProductNode, [x, Product([x, q])]) == [x, x, q]
  {
    assert [x, Product([x, q])][1..] == [Product([x, q])];
    assert [Product([x, q])][1..] == [];
    FlattenPair(ProductNode, x, q);
    assert FlattenList(ProductNode, [Product([x, q])]) == [x, q];
    assert [x] + [x, q] == [x, x, q];
  }

  lemma SquareTimesOneOverCubeFactors(x: Expr, f: nat)
    requires IsAtom(x) && f >= 3
    ensures MapSimplify([x, x, Fraction(Number(1.0), Product([x, Product([x, x])]))], f) ==
            Ok([x, x, Fraction(Number(1.0), Power(x, Number(3.0)))])
  {
    var q := Fraction(Number(1.0), Product([x, Product([x, x])]));
    var q' := Fraction(Number(1.0), Power(x, Number(3.0)));
    assert Simplify(x, f) == Ok(x);
    OneOverCube(x, f);
    MapSimplifyPair(x, q, x, q', f);
    MapSimplifyCons(x, [x, q], x, [x, q'], f);
    assert [x] + [x, q] == [x, x, q] && [x] + [x, q'] == [x, x, q'];
  }

  /** The one cancellation step of `x / x^2`: `x` leaves the numerator, `x` stays below. */
  lemma AtomOverSquareStep(x: Expr, fuel: nat)
    requires IsAtom(x) && fuel >= 2
    ensures ReduceStep([x], [], [Power(x, Number(2.0))], fuel) == Ok(([], [x]))
  {
    var square := Power(x, Number(2.0));
    IdenticalReflexive(x);
    ReduceFactorByExponents(x, [], [square], fuel, 0, 1.0, 2.0);
    PowerOfAtom(x, 1.0, fuel);
    assert RemoveAt([square], 0) == [];
    assert [] + [x] == [x];
    assert ReduceStep([x][1..], [], [x], fuel) == Ok(([], [x]));
  }

  /** The one cancellation step of `x^2 / x^3`: `x^2` leaves the numerator, `x` stays below. */
  lemma SquareOverCubeStep(x: Expr, fuel: nat)
    requires IsAtom(x) && fuel >= 2
    ensures ReduceStep([Power(x, Number(2.0))], [], [Power(x, Number(3.0))], fuel) == Ok(([], [x]))
  {
    var square, cube := Power(x, Number(2.0)), Power(x, Number(3.0));
    IdenticalReflexive(x);
    ReduceFactorByExponents(square, [], [cube], fuel, 0, 2.0, 3.0);
    PowerOfAtom(x, 1.0, fuel);
    assert RemoveAt([cube], 0) == [];
    assert [] + [x] == [x];
    assert ReduceStep([square][1..], [], [x], fuel) == Ok(([], [x]));
  }
}
