/** What the cancellation in `reduceNonNumericalFraction` and the pulling together of
    fractions in `simplifyProduct` compute: matching bases leave the difference of their
    exponents on the side its sign calls for, and a product with fraction factors becomes a
    single quotient of the same value. */
module SimplifierFractions {
  import opened Wrappers
  import opened Expression
  import opened Simplifier
  import opened SimplifierExamples

  // ---------------------------------------------------------------------------
  // Cancelling one factor

  /** The loop finds the first denominator factor with the same base. */
  lemma FirstMatchFound(b: Expr, d: seq<Expr>, i: nat)
    requires i < |d| && Identical(b, Base(d[i]))
    requires forall j :: 0 <= j < i ==> !Identical(b, Base(d[j]))
    ensures FindIndex((f: Expr) => Identical(b, Base(f)), d) == Some(i)
  {
    var p := (f: Expr) => Identical(b, Base(f));
    assert p(d[i]);
  }

  /** A factor whose base matches no denominator factor moves to the numerator as it is. */
  lemma ReduceFactorWithoutMatch(factor: Expr, uniqueNumerator: seq<Expr>, uniqueDenominator: seq<Expr>, fuel: nat)
    requires forall j :: 0 <= j < |uniqueDenominator| ==> !Identical(Base(factor), Base(uniqueDenominator[j]))
    ensures ReduceFactor(factor, uniqueNumerator, uniqueDenominator, fuel) ==
            Ok((uniqueNumerator + [factor], uniqueDenominator))
  {
  }

  /** Cancelling `b^m` against the first denominator factor `b^n` with the same base, for
      numeric exponents: that factor is removed, and what is left is `b^(m-n)` appended to
      the numerator when m > n, `b^(n-m)` appended to the denominator when m < n, and
      nothing when m = n. */
  lemma ReduceFactorByExponents(factor: Expr, uniqueNumerator: seq<Expr>, uniqueDenominator: seq<Expr>,
                                fuel: nat, i: nat, m: real, n: real)
    requires fuel >= 2
    requires i < |uniqueDenominator| && Identical(Base(factor), Base(uniqueDenominator[i]))
    requires forall j :: 0 <= j < i ==> !Identical(Base(factor), Base(uniqueDenominator[j]))
    requires Exponent(factor) == Number(m) && Exponent(uniqueDenominator[i]) == Number(n)
    ensures m == n ==>
            ReduceFactor(factor, uniqueNumerator, uniqueDenominator, fuel) ==
            Ok((uniqueNumerator, RemoveAt(uniqueDenominator, i)))
    ensures m > n ==>
            ReduceFactor(factor, uniqueNumerator, uniqueDenominator, fuel) ==
            match Simplify(Power(Base(factor), Number(m - n)), fuel)
            case Ok(p) => Ok((uniqueNumerator + [p], RemoveAt(uniqueDenominator, i)))
            case Err(e) => Err(e)
    ensures m < n ==>
            ReduceFactor(factor, uniqueNumerator, uniqueDenominator, fuel) ==
            match Simplify(Power(Base(factor), Number(n - m)), fuel)
            case Ok(p) => Ok((uniqueNumerator, RemoveAt(uniqueDenominator, i) + [p]))
            case Err(e) => Err(e)
  {
    FirstMatchFound(Base(factor), uniqueDenominator, i);
    SubtractionOfNumbers(m, n, fuel);
    IdenticalToNumber(Number(m - n), 0.0);
    assert -(m - n) == n - m;
  }

  // ---------------------------------------------------------------------------
  // Powers of atoms

  /** `x ^ k` for an atom `x` and a number `k`: 1, `x`, or the power itself. */
  lemma PowerOfAtom(x: Expr, k: real, fuel: nat)
    requires IsAtom(x)
    requires fuel >= 1
    ensures Simplify(Power(x, Number(k)), fuel) ==
            Ok(if k == 0.0 then Number(1.0) else if k == 1.0 then x else Power(x, Number(k)))
  {
    assert Simplify(x, fuel - 1) == Ok(x);
    assert Simplify(Number(k), fuel - 1) == Ok(Number(k));
    IdenticalToNumber(Number(k), 0.0);
    IdenticalToNumber(Number(k), 1.0);
    IdenticalToNumber(x, 0.0);
    IdenticalToNumber(x, 1.0);
  }

  // ---------------------------------------------------------------------------
  // Whole fractions

  /** Two sides without Number factors: the cancelled lists are rebuilt into products and
      checked. */
  lemma ReduceWithoutNumbers(numerator: Expr, denominator: Expr, fuel: nat,
                             un: seq<Expr>, ud: seq<Expr>, n: Expr, d: Expr)
    requires forall i :: 0 <= i < |Factors(numerator)| ==> !Factors(numerator)[i].Number?
    requires forall i :: 0 <= i < |Factors(denominator)| ==> !Factors(denominator)[i].Number?
    requires |Factors(numerator)| > 0 && |Factors(denominator)| > 0
    requires ReduceStep(Factors(numerator), [], Factors(denominator), fuel) == Ok((un, ud))
    requires Simplify(Product(un), fuel) == Ok(n) && Simplify(Product(ud), fuel) == Ok(d)
    ensures ReduceFraction(numerator, denominator, fuel) == FinishFraction(n, d)
  {
    ReduceWithoutNumbersUnfolds(numerator, denominator, fuel);
  }

  /** Without Number factors, "Reduce fraction" cancels the factor lists and simplifies
      each side's product. */
  lemma ReduceWithoutNumbersUnfolds(numerator: Expr, denominator: Expr, fuel: nat)
    requires forall i :: 0 <= i < |Factors(numerator)| ==> !Factors(numerator)[i].Number?
    requires forall i :: 0 <= i < |Factors(denominator)| ==> !Factors(denominator)[i].Number?
    requires |Factors(numerator)| > 0 && |Factors(denominator)| > 0
    ensures ReduceFraction(numerator, denominator, fuel) ==
            (var reduced :- ReduceStep(Factors(numerator), [], Factors(denominator), fuel);
             var n :- Simplify(Product(reduced.0), fuel);
             var d :- Simplify(Product(reduced.1), fuel);
             FinishFraction(n, d))
  {
    NoNumberFactors(Factors(numerator));
    NoNumberFactors(Factors(denominator));
    var none: seq<Expr> := [];
    forall u: seq<Expr> ensures none + u == u {
    }
  }

  /** A factor list without Numbers keeps all its factors and has no Number to find. */
  lemma NoNumberFactors(s: seq<Expr>)
    requires forall i :: 0 <= i < |s| ==> !s[i].Number?
    ensures FilterKind(s, NumberTag, false) == s
    ensures FindIndex((e: Expr) => e.Number?, s) == None
  {
    assert forall i :: 0 <= i < |s| ==> TypeTag(s[i]) != NumberTag;
    FilterKindAll(s, NumberTag, false);
    assert FindIndex((e: Expr) => e.Number?, s) == None;
  }

  /** `(x * x) / x` reduces to `x`: the first `x` cancels the denominator, the second has
      nothing left to match. */
  lemma SquareOverAtomReduces(x: Expr, fuel: nat)
    requires IsAtom(x)
    requires fuel >= 2
    ensures ReduceFraction(Product([x, x]), x, fuel) == Ok(x)
  {
    assert ReduceStep([x, x], [], [x], fuel) == Ok(([x], [])) by {
      IdenticalReflexive(x);
      ReduceFactorByExponents(x, [], [x], fuel, 0, 1.0, 1.0);
      assert RemoveAt([x], 0) == [];
      ReduceFactorWithoutMatch(x, [], [], fuel);
      assert [x, x][1..] == [x] && [x][1..] == [];
      assert [] + [x] == [x];
      assert ReduceStep([x], [], [], fuel) == Ok(([x], []));
    }
    ShortProduct([x], fuel);
    ShortProduct([], fuel);
    ReduceWithoutNumbers(Product([x, x]), x, fuel, [x], [], x, Number(1.0));
    IdenticalToNumber(x, 0.0);
  }

  /** `x^3 / x` reduces to `x^2`: the exponent difference 2 goes to the numerator. */
  lemma CubeOverAtomReduces(x: Expr, fuel: nat)
    requires IsAtom(x)
    requires fuel >= 2
    ensures ReduceFraction(Power(x, Number(3.0)), x, fuel) == Ok(Power(x, Number(2.0)))
  {
    var cube := Power(x, Number(3.0));
    var square := Power(x, Number(2.0));
    assert ReduceStep([cube], [], [x], fuel) == Ok(([square], [])) by {
      IdenticalReflexive(x);
      ReduceFactorByExponents(cube, [], [x], fuel, 0, 3.0, 1.0);
      PowerOfAtom(x, 2.0, fuel);
      assert RemoveAt([x], 0) == [];
      assert [] + [square] == [square];
      assert ReduceStep([cube][1..], [square], [], fuel) == Ok(([square], []));
    }
    ShortProduct([square], fuel);
    ShortProduct([], fuel);
    ReduceWithoutNumbers(cube, x, fuel, [square], [], square, Number(1.0));
    IdenticalToNumber(square, 0.0);
  }

  /** `x / x^3` reduces to `1 / x^2`: the exponent difference -2 goes to the denominator. */
  lemma AtomOverCubeReduces(x: Expr, fuel: nat)
    requires IsAtom(x)
    requires fuel >= 2
    ensures ReduceFraction(x, Power(x, Number(3.0)), fuel) == Ok(Fraction(Number(1.0), Power(x, Number(2.0))))
  {
    var cube := Power(x, Number(3.0));
    var square := Power(x, Number(2.0));
    AtomOverCubeStep(x, fuel);
    ShortProduct([square], fuel);
    ShortProduct([], fuel);
    ReduceWithoutNumbers(x, cube, fuel, [], [square], Number(1.0), square);
    IdenticalToNumber(square, 0.0);
    IdenticalToNumber(square, 1.0);
  }

  /** The one cancellation step of `x / x^3`: `x` leaves the numerator, `x^2` stays below. */
  lemma AtomOverCubeStep(x: Expr, fuel: nat)
    requires IsAtom(x) && fuel >= 2
    ensures ReduceStep([x], [], [Power(x, Number(3.0))], fuel) == Ok(([], [Power(x, Number(2.0))]))
  {
    var cube := Power(x, Number(3.0));
    var square := Power(x, Number(2.0));
    IdenticalReflexive(x);
    ReduceFactorByExponents(x, [], [cube], fuel, 0, 1.0, 3.0);
    PowerOfAtom(x, 2.0, fuel);
    assert RemoveAt([cube], 0) == [];
    assert [] + [square] == [square];
    assert ReduceStep([x][1..], [], [square], fuel) == Ok(([], [square]));
  }

  // ---------------------------------------------------------------------------
  // Pulling fractions together

  /** The value of a factor list in which a Fraction factor counts as its quotient. */
  function SidesValue(s: seq<Expr>, val: Expr -> real): real
  {
    if s == [] then 1.0 else SideValue(s[0], val) * SidesValue(s[1..], val)
  }

  lemma {:induction false} ListValueAppend(a: seq<Expr>, b: seq<Expr>, val: Expr -> real)
    ensures ListValue(a + b, val) == ListValue(a, val) * ListValue(b, val)
  {
    if a == [] {
      assert a + b == b;
    } else {
      assert (a + b)[1..] == a[1..] + b;
      ListValueAppend(a[1..], b, val);
      var v, l, r := val(a[0]), ListValue(a[1..], val), ListValue(b, val);
      assert v * (l * r) == (v * l) * r;
    }
  }

  /** One Fraction factor `a / b` more, whose quotient is `q`: both sides of the invariant
      scale alike. */
  lemma ScaleBoth(a: real, b: real, q: real, n: real, m: real, sides: real, d: real,
                  upper: real, total: real, lower: real)
    requires b != 0.0 && d != 0.0 && Times(q, b) == a
    requires Times(n, m) == Times(sides, d)
    requires upper == Times(a, n) && total == Times(q, sides) && lower == Times(b, d)
    ensures lower != 0.0
    ensures Times(upper, m) == Times(total, lower)
  {
    calc {
      total * lower;
      (q * sides) * (b * d);
      (q * b) * (sides * d);
      a * (n * m);
      upper * m;
    }
  }

  /** One other factor `v` more. */
  lemma ScaleOthers(v: real, n: real, m: real, sides: real, d: real, others: real, total: real)
    requires Times(n, m) == Times(sides, d)
    requires others == Times(v, m) && total == Times(v, sides)
    ensures Times(n, others) == Times(total, d)
  {
    calc {
      n * others;
      n * (v * m);
      v * (n * m);
    }
  }

  lemma DivideBack(n: real, m: real, p: real, d: real, q: real)
    requires d != 0.0 && p == n * m && Times(n, m) == Times(q, d)
    ensures p / d == q
  {
  }

  predicate FractionsOnly(s: seq<Expr>)
  {
    forall i :: 0 <= i < |s| ==> s[i].Fraction?
  }

  lemma {:induction false} FractionTagged(s: seq<Expr>)
    ensures FractionsOnly(FilterKind(s, FractionTag, true))
  {
    var r := FilterKind(s, FractionTag, true);
    forall i | 0 <= i < |r|
      ensures r[i].Fraction?
    {
      assert TypeTag(r[i]) == FractionTag;
    }
  }

  /** The three lists of "Pull fractions together", built in one pass. */
  function FractionNumerators(s: seq<Expr>): seq<Expr>
  {
    if s == [] then [] else (if s[0].Fraction? then [s[0].numerator] else []) + FractionNumerators(s[1..])
  }

  function FractionDenominators(s: seq<Expr>): seq<Expr>
  {
    if s == [] then [] else (if s[0].Fraction? then [s[0].denominator] else []) + FractionDenominators(s[1..])
  }

  function NonFractions(s: seq<Expr>): seq<Expr>
  {
    if s == [] then [] else (if s[0].Fraction? then [] else [s[0]]) + NonFractions(s[1..])
  }

  /** The filters and maps of `simplifyProduct` build those three lists. */
  lemma {:induction false} PulledListsAgree(s: seq<Expr>)
    ensures FractionsOnly(FilterKind(s, FractionTag, true))
    ensures Numerators(FilterKind(s, FractionTag, true)) == FractionNumerators(s)
    ensures Denominators(FilterKind(s, FractionTag, true)) == FractionDenominators(s)
    ensures FilterKind(s, FractionTag, false) == NonFractions(s)
  {
    FractionTagged(s);
    if s != [] {
      PulledListsAgree(s[1..]);
      var fr := FilterKind(s[1..], FractionTag, true);
      if s[0].Fraction? {
        assert FilterKind(s, FractionTag, true) == [s[0]] + fr;
        assert Numerators([s[0]] + fr) == [s[0].numerator] + Numerators(fr);
        assert Denominators([s[0]] + fr) == [s[0].denominator] + Denominators(fr);
      } else {
        assert FilterKind(s, FractionTag, true) == fr;
      }
    }
  }

  /** No Fraction factor has a denominator of value zero. */
  predicate DenominatorsNonzero(s: seq<Expr>, val: Expr -> real)
  {
    s == [] || ((s[0].Fraction? ==> val(s[0].denominator) != 0.0) && DenominatorsNonzero(s[1..], val))
  }

  lemma {:induction false} DenominatorsNonzeroAt(s: seq<Expr>, val: Expr -> real)
    requires forall i :: 0 <= i < |s| && s[i].Fraction? ==> val(s[i].denominator) != 0.0
    ensures DenominatorsNonzero(s, val)
  {
    if s != [] {
      assert forall i :: 1 <= i < |s| ==> s[1..][i - 1] == s[i];
      DenominatorsNonzeroAt(s[1..], val);
    }
  }

  /** The numerators of the fraction factors times the other factors equal the value of
      the factor list times the denominators. */
  predicate Balanced(s: seq<Expr>, val: Expr -> real)
  {
    Times(ListValue(FractionNumerators(s), val), ListValue(NonFractions(s), val))
    == Times(SidesValue(s, val), ListValue(FractionDenominators(s), val))
  }

  /** Multiplication under a name of its own, so that equal factors give equal products
      without arithmetic. */
  function Times(a: real, b: real): real
  {
    a * b
  }

  /** The invariant holds of every factor list without a zero denominator, and the
      denominators do not vanish. */
  lemma {:induction false} PulledTogetherProduct(s: seq<Expr>, val: Expr -> real)
    requires DenominatorsNonzero(s, val)
    ensures ListValue(FractionDenominators(s), val) != 0.0
    ensures Balanced(s, val)
  {
    if s == [] {
      assert FractionNumerators(s) == [] && NonFractions(s) == [] && FractionDenominators(s) == [];
      assert ListValue([], val) == 1.0 && SidesValue([], val) == 1.0;
    } else {
      var x, t := s[0], s[1..];
      PulledTogetherProduct(t, val);
      assert s == [x] + t;
      BalancedCons(x, t, val);
    }
  }

  /** One factor more keeps the invariant. */
  lemma {:induction false} BalancedCons(x: Expr, t: seq<Expr>, val: Expr -> real)
    requires x.Fraction? ==> val(x.denominator) != 0.0
    requires ListValue(FractionDenominators(t), val) != 0.0 && Balanced(t, val)
    ensures ListValue(FractionDenominators([x] + t), val) != 0.0 && Balanced([x] + t, val)
  {
    if x.Fraction? {
      BalancedConsFraction(x, t, val);
    } else {
      BalancedConsOther(x, t, val);
    }
  }

  lemma {:induction false} BalancedConsFraction(x: Expr, t: seq<Expr>, val: Expr -> real)
    requires x.Fraction? && val(x.denominator) != 0.0
    requires ListValue(FractionDenominators(t), val) != 0.0 && Balanced(t, val)
    ensures ListValue(FractionDenominators([x] + t), val) != 0.0 && Balanced([x] + t, val)
  {
    UnfoldFraction(x, t, val);
    ScaleBoth(val(x.numerator), val(x.denominator), SideValue(x, val),
              ListValue(FractionNumerators(t), val), ListValue(NonFractions(t), val),
              SidesValue(t, val), ListValue(FractionDenominators(t), val),
              ListValue(FractionNumerators([x] + t), val), SidesValue([x] + t, val),
              ListValue(FractionDenominators([x] + t), val));
  }

  lemma {:induction false} BalancedConsOther(x: Expr, t: seq<Expr>, val: Expr -> real)
    requires !x.Fraction?
    requires ListValue(FractionDenominators(t), val) != 0.0 && Balanced(t, val)
    ensures ListValue(FractionDenominators([x] + t), val) != 0.0 && Balanced([x] + t, val)
  {
    var s := [x] + t;
    UnfoldOther(x, t, val);
    var n, m, d := ListValue(FractionNumerators(t), val), ListValue(NonFractions(t), val),
                   ListValue(FractionDenominators(t), val);
    var others, total := ListValue(NonFractions(s), val), SidesValue(s, val);
    ScaleOthers(val(x), n, m, SidesValue(t, val), d, others, total);
    BalancedOfValues(s, val, n, others, total, d);
  }

  /** Balanced, given the four values it compares. */
  lemma BalancedOfValues(s: seq<Expr>, val: Expr -> real, n: real, m: real, sides: real, d: real)
    requires ListValue(FractionNumerators(s), val) == n && ListValue(NonFractions(s), val) == m
    requires SidesValue(s, val) == sides && ListValue(FractionDenominators(s), val) == d
    requires Times(n, m) == Times(sides, d)
    ensures Balanced(s, val)
  {
  }

  lemma QuotientTimesDivisor(a: real, b: real, q: real)
    requires b != 0.0 && q == a / b
    ensures q * b == a
  {
  }

  lemma {:induction false} ListValueCons(x: Expr, t: seq<Expr>, val: Expr -> real)
    ensures ListValue([x] + t, val) == Times(val(x), ListValue(t, val))
  {
    assert ([x] + t)[1..] == t;
  }

  lemma {:induction false} SidesValueCons(x: Expr, t: seq<Expr>, val: Expr -> real)
    ensures SidesValue([x] + t, val) == Times(SideValue(x, val), SidesValue(t, val))
  {
    assert ([x] + t)[1..] == t;
  }

  lemma {:induction false} PulledListsCons(x: Expr, t: seq<Expr>)
    ensures FractionNumerators([x] + t) == (if x.Fraction? then [x.numerator] else []) + FractionNumerators(t)
    ensures FractionDenominators([x] + t) == (if x.Fraction? then [x.denominator] else []) + FractionDenominators(t)
    ensures NonFractions([x] + t) == (if x.Fraction? then [] else [x]) + NonFractions(t)
  {
    assert ([x] + t)[1..] == t;
  }

  /** The four values after one Fraction factor. */
  lemma {:induction false} UnfoldFraction(x: Expr, t: seq<Expr>, val: Expr -> real)
    requires x.Fraction? && val(x.denominator) != 0.0
    ensures ListValue(FractionNumerators([x] + t), val) == Times(val(x.numerator), ListValue(FractionNumerators(t), val))
    ensures ListValue(FractionDenominators([x] + t), val) == Times(val(x.denominator), ListValue(FractionDenominators(t), val))
    ensures ListValue(NonFractions([x] + t), val) == ListValue(NonFractions(t), val)
    ensures SidesValue([x] + t, val) == Times(SideValue(x, val), SidesValue(t, val))
    ensures Times(SideValue(x, val), val(x.denominator)) == val(x.numerator)
  {
    QuotientTimesDivisor(val(x.numerator), val(x.denominator), SideValue(x, val));
    PulledListsCons(x, t);
    assert [] + NonFractions(t) == NonFractions(t);
    ListValueCons(x.numerator, FractionNumerators(t), val);
    ListValueCons(x.denominator, FractionDenominators(t), val);
    SidesValueCons(x, t, val);
  }

  /** The four values after one other factor. */
  lemma {:induction false} UnfoldOther(x: Expr, t: seq<Expr>, val: Expr -> real)
    requires !x.Fraction?
    ensures ListValue(FractionNumerators([x] + t), val) == ListValue(FractionNumerators(t), val)
    ensures ListValue(FractionDenominators([x] + t), val) == ListValue(FractionDenominators(t), val)
    ensures ListValue(NonFractions([x] + t), val) == Times(val(x), ListValue(NonFractions(t), val))
    ensures SidesValue([x] + t, val) == Times(val(x), SidesValue(t, val))
  {
    PulledListsCons(x, t);
    assert [] + FractionNumerators(t) == FractionNumerators(t);
    assert [] + FractionDenominators(t) == FractionDenominators(t);
    ListValueCons(x, NonFractions(t), val);
    SidesValueCons(x, t, val);
  }

  /** What pulling the fractions of a product together is for: the numerators with the other
      factors, over the denominators, have the value of the product (no denominator zero). */
  lemma {:induction false} PulledTogetherKeepsValue(factors: seq<Expr>, val: Expr -> real)
    requires forall i :: 0 <= i < |factors| && factors[i].Fraction? ==> val(factors[i].denominator) != 0.0
    ensures ListValue(Denominators(FilterKind(factors, FractionTag, true)), val) != 0.0
    ensures ListValue(Numerators(FilterKind(factors, FractionTag, true)) + FilterKind(factors, FractionTag, false), val) /
            ListValue(Denominators(FilterKind(factors, FractionTag, true)), val)
            == SidesValue(factors, val)
  {
    PulledListsAgree(factors);
    DenominatorsNonzeroAt(factors, val);
    PulledTogetherQuotient(factors, val);
  }

  lemma {:induction false} PulledTogetherQuotient(factors: seq<Expr>, val: Expr -> real)
    requires DenominatorsNonzero(factors, val)
    ensures ListValue(FractionDenominators(factors), val) != 0.0
    ensures ListValue(FractionNumerators(factors) + NonFractions(factors), val) /
            ListValue(FractionDenominators(factors), val) == SidesValue(factors, val)
  {
    PulledTogetherProduct(factors, val);
    QuotientOfBalanced(FractionNumerators(factors), NonFractions(factors), FractionDenominators(factors),
                       SidesValue(factors, val), val);
  }

  lemma {:induction false} QuotientOfBalanced(n: seq<Expr>, m: seq<Expr>, d: seq<Expr>, q: real, val: Expr -> real)
    requires ListValue(d, val) != 0.0
    requires Times(ListValue(n, val), ListValue(m, val)) == Times(q, ListValue(d, val))
    ensures ListValue(n + m, val) / ListValue(d, val) == q
  {
    ListValueAppend(n, m, val);
    DivideBack(ListValue(n, val), ListValue(m, val), ListValue(n + m, val), ListValue(d, val), q);
  }
}
