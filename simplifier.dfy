/** The term-rewriting simplifier of src/math/expression.js (`flattenTree`, `combineElements`,
    `simplifySum`, `simplifyProduct`, `reduceNonNumericalFraction`, `simplifyFraction`,
    `simplifyPower`, `simplify`).

    The helpers call one another through `simplify` with no structural measure, so every
    function takes a `fuel` that `Simplify` spends on each Sum, Product, Fraction or Power it
    dispatches; running out is reported as `OutOfFuel` where the source would recurse on
    (or exhaust the call stack). */
module Simplifier {
  import opened Wrappers
  import opened Expression
  import ListUtil

  datatype SimplifyError =
    | ZeroToTheZero   // '0 ^ 0 is undefined'
    | DivisionByZero  // 'Division by 0 is undefined'
    | UndefinedTerm   // a TypeError: a summand's coefficient-stripped factor list was empty
    | OutOfFuel

  type Outcome<T> = Result<T, SimplifyError>

  // ---------------------------------------------------------------------------
  // Array helpers (`filter`, `findIndex`)

  /** `list.find(x => identical(x, number(c)))` is truthy. */
  predicate AnyIdenticalTo(s: seq<Expr>, c: real)
  {
    s != [] && (Identical(s[0], Number(c)) || AnyIdenticalTo(s[1..], c))
  }

  lemma {:induction false} AnyIdenticalToIsMembership(s: seq<Expr>, c: real)
    ensures AnyIdenticalTo(s, c) <==> Number(c) in s
  {
    if s != [] {
      IdenticalToNumber(s[0], c);
      AnyIdenticalToIsMembership(s[1..], c);
      assert s == [s[0]] + s[1..];
    }
  }

  /** The tags of the kinds the simplifier filters by (`isNumber`, `isSum`, `isFraction`). */
  const NumberTag: nat := TypeTag(Number(0.0))
  const SumTag: nat := TypeTag(Sum([]))
  const FractionTag: nat := TypeTag(Fraction(Number(0.0), Number(0.0)))

  /** `list.filter(isKind)` when `want`, `list.filter(x => !isKind(x))` otherwise. */
  function FilterKind(s: seq<Expr>, tag: nat, want: bool): (r: seq<Expr>)
    ensures |r| <= |s|
    ensures forall i :: 0 <= i < |r| ==> (TypeTag(r[i]) == tag) == want
    ensures forall i :: 0 <= i < |s| && (TypeTag(s[i]) == tag) == want ==> s[i] in r
  {
    if s == [] then []
    else (if (TypeTag(s[0]) == tag) == want then [s[0]] else []) + FilterKind(s[1..], tag, want)
  }

  /** Filtering keeps everything when every element passes, and nothing when none does. */
  lemma {:induction false} FilterKindAll(s: seq<Expr>, tag: nat, want: bool)
    requires forall i :: 0 <= i < |s| ==> (TypeTag(s[i]) == tag) == want
    ensures FilterKind(s, tag, want) == s
  {
    if s != [] {
      FilterKindAll(s[1..], tag, want);
      assert [s[0]] + s[1..] == s;
    }
  }

  lemma {:induction false} FilterKindNone(s: seq<Expr>, tag: nat, want: bool)
    requires forall i :: 0 <= i < |s| ==> (TypeTag(s[i]) == tag) != want
    ensures FilterKind(s, tag, want) == []
  {
    if s != [] {
      FilterKindNone(s[1..], tag, want);
    }
  }

  /** Filtering keeps only elements of the list. */
  lemma {:induction false} FilterKindSubset(s: seq<Expr>, tag: nat, want: bool, x: Expr)
    requires x in FilterKind(s, tag, want)
    ensures x in s
  {
    if s != [] && x != s[0] {
      FilterKindSubset(s[1..], tag, want, x);
    }
  }

  lemma {:induction false} WithoutIdenticalToSubset(s: seq<Expr>, c: real, x: Expr)
    requires x in WithoutIdenticalTo(s, c)
    ensures x in s
  {
    if s != [] && x != s[0] {
      WithoutIdenticalToSubset(s[1..], c, x);
    }
  }

  /** `list.filter(x => !identical(x, number(c)))`: identical to a Number means equal to it. */
  function WithoutIdenticalTo(s: seq<Expr>, c: real): (r: seq<Expr>)
    ensures |r| <= |s|
    ensures forall i :: 0 <= i < |r| ==> r[i] != Number(c)
    ensures forall i :: 0 <= i < |s| && s[i] != Number(c) ==> s[i] in r
  {
    if s == [] then []
    else
      IdenticalToNumber(s[0], c);
      (if !Identical(s[0], Number(c)) then [s[0]] else []) + WithoutIdenticalTo(s[1..], c)
  }

  function FindIndex<T>(p: T -> bool, s: seq<T>): (r: Option<nat>)
    ensures r.Some? ==> r.value < |s| && p(s[r.value]) && forall k :: 0 <= k < r.value ==> !p(s[k])
    ensures r.None? ==> forall k :: 0 <= k < |s| ==> !p(s[k])
  {
    if s == [] then None
    else if p(s[0]) then Some(0)
    else match FindIndex(p, s[1..])
      case None => None
      case Some(k) => Some(k + 1)
  }

  /** Both operands are numbers and (exactly) identical. */
  lemma IdenticalToNumber(x: Expr, c: real)
    ensures Identical(x, Number(c)) <==> x == Number(c)
  {
  }

  // ---------------------------------------------------------------------------
  // Flattening

  datatype Assoc = SumNode | ProductNode

  predicate IsParent(k: Assoc, e: Expr)
  {
    if k.SumNode? then e.Sum? else e.Product?
  }

  /** `flattenTree(isParent, key, expr)`: the leaves, left to right, of the tree of nested
      nodes of kind `k`. */
  function Flatten(k: Assoc, e: Expr): seq<Expr>
  {
    match e
    case Sum(s) => if k.SumNode? then FlattenList(k, s) else [e]
    case Product(s) => if k.ProductNode? then FlattenList(k, s) else [e]
    case _ => [e]
  }

  function FlattenList(k: Assoc, s: seq<Expr>): seq<Expr>
  {
    if s == [] then [] else Flatten(k, s[0]) + FlattenList(k, s[1..])
  }

  /** Flattening leaves no node of the flattened kind behind. */
  lemma {:induction false} FlattenListHasNoParent(k: Assoc, s: seq<Expr>)
    ensures forall x :: x in FlattenList(k, s) ==> !IsParent(k, x)
  {
    if s != [] {
      FlattenHasNoParent(k, s[0]);
      FlattenListHasNoParent(k, s[1..]);
    }
  }

  lemma {:induction false} FlattenHasNoParent(k: Assoc, e: Expr)
    ensures forall x :: x in Flatten(k, e) ==> !IsParent(k, x)
  {
    match e
    case Sum(s) => if k.SumNode? { FlattenListHasNoParent(k, s); }
    case Product(s) => if k.ProductNode? { FlattenListHasNoParent(k, s); }
    case _ =>
  }

  /** Flattening loses no identifier: the parameters, in order, are those of the input list. */
  lemma {:induction false} FlattenListKeepsParameters(k: Assoc, s: seq<Expr>)
    ensures ConcatParameters(FlattenList(k, s)) == ConcatParameters(s)
  {
    if s != [] {
      FlattenKeepsParameters(k, s[0]);
      FlattenListKeepsParameters(k, s[1..]);
      ConcatParametersAppend(Flatten(k, s[0]), FlattenList(k, s[1..]));
    }
  }

  lemma {:induction false} FlattenKeepsParameters(k: Assoc, e: Expr)
    ensures ConcatParameters(Flatten(k, e)) == GetParameters(e)
  {
    match e
    case Sum(s) =>
      if k.SumNode? { FlattenListKeepsParameters(k, s); } else { assert [e][1..] == []; }
    case Product(s) =>
      if k.ProductNode? { FlattenListKeepsParameters(k, s); } else { assert [e][1..] == []; }
    case _ =>
      assert [e][1..] == [];
  }

  lemma {:induction false} ConcatParametersAppend(s: seq<Expr>, t: seq<Expr>)
    ensures ConcatParameters(s + t) == ConcatParameters(s) + ConcatParameters(t)
  {
    if s != [] {
      assert (s + t)[1..] == s[1..] + t;
      ConcatParametersAppend(s[1..], t);
    } else {
      assert s + t == t;
    }
  }

  // ---------------------------------------------------------------------------
  // Coefficients and exponents

  /** A `{coeff, expr}` record of `combineElements`. */
  datatype Term = Term(coeff: Expr, expr: Expr)

  function Factors(e: Expr): seq<Expr>
  {
    if e.Product? then e.factors else [e]
  }

  function Base(e: Expr): Expr
  {
    if e.Power? then e.base else e
  }

  function Exponent(e: Expr): Expr
  {
    if e.Power? then e.exponent else Number(1.0)
  }

  /** A factor list as one expression: `factors.length > 1 ? product(factors) : factors[0]`;
      `None` when the list is empty and `factors[0]` is undefined. */
  function Joined(factors: seq<Expr>): Option<Expr>
  {
    if |factors| > 1 then Some(Product(factors))
    else if |factors| == 1 then Some(factors[0])
    else None
  }

  /** The numeric coefficient of a summand (its first Number factor, default 1) and the
      rest of its factors. */
  function CoefficientTerm(summand: Expr): Option<Term>
  {
    var factors := Factors(summand);
    match FindIndex((x: Expr) => x.Number?, factors)
    case None =>
      (match Joined(factors)
       case None => None
       case Some(x) => Some(Term(Number(1.0), x)))
    case Some(i) =>
      (match Joined(RemoveAt(factors, i))
       case None => None
       case Some(x) => Some(Term(Number(factors[i].value), x)))
  }

  /** The summands with their coefficients split off. An undefined stripped factor makes the
      source throw a TypeError before anything else can throw. */
  function CoefficientTerms(summands: seq<Expr>): (r: Outcome<seq<Term>>)
    ensures r.Ok? ==> |r.value| == |summands|
    ensures r.Ok? ==> forall i :: 0 <= i < |summands| ==> CoefficientTerm(summands[i]) == Some(r.value[i])
    ensures r.Err? <==> exists i :: 0 <= i < |summands| && CoefficientTerm(summands[i]).None?
    ensures r.Err? ==> r.error == UndefinedTerm
  {
    if summands == [] then Ok([])
    else
      match CoefficientTerm(summands[0])
      case None => Err(UndefinedTerm)
      case Some(t) =>
        var rest :- CoefficientTerms(summands[1..]);
        Ok([t] + rest)
  }

  /** Each factor as its base with its exponent (default 1) as coefficient. */
  function ExponentTerms(factors: seq<Expr>): (r: seq<Term>)
    ensures |r| == |factors|
    ensures forall i :: 0 <= i < |factors| ==> r[i] == Term(Exponent(factors[i]), Base(factors[i]))
  {
    seq(|factors|, i requires 0 <= i < |factors| => Term(Exponent(factors[i]), Base(factors[i])))
  }

  predicate AllNumbers(s: seq<Expr>)
  {
    forall i :: 0 <= i < |s| ==> s[i].Number?
  }

  function SumValues(s: seq<Expr>): real
    requires AllNumbers(s)
  {
    if s == [] then 0.0 else s[0].value + SumValues(s[1..])
  }

  function ProductValues(s: seq<Expr>): real
    requires AllNumbers(s)
  {
    if s == [] then 1.0 else s[0].value * ProductValues(s[1..])
  }

  /** A zero among the numbers makes their product zero. */
  lemma {:induction false} ProductValuesZero(s: seq<Expr>)
    requires AllNumbers(s)
    requires Number(0.0) in s
    ensures ProductValues(s) == 0.0
  {
    if s[0] != Number(0.0) {
      ProductValuesZero(s[1..]);
    }
  }

  function Numerators(fractions: seq<Expr>): seq<Expr>
    requires forall i :: 0 <= i < |fractions| ==> fractions[i].Fraction?
  {
    seq(|fractions|, i requires 0 <= i < |fractions| && fractions[i].Fraction? => fractions[i].numerator)
  }

  function Denominators(fractions: seq<Expr>): seq<Expr>
    requires forall i :: 0 <= i < |fractions| ==> fractions[i].Fraction?
  {
    seq(|fractions|, i requires 0 <= i < |fractions| && fractions[i].Fraction? => fractions[i].denominator)
  }

  /** The last step of `simplifySum` and `simplifyProduct`: the identity for no terms, the
      lone term, or a node of kind `k`. */
  function Collect(k: Assoc, terms: seq<Expr>): Expr
  {
    if |terms| == 0 then (if k.SumNode? then Number(0.0) else Number(1.0))
    else if |terms| == 1 then terms[0]
    else if k.SumNode? then Sum(terms) else Product(terms)
  }

  // ---------------------------------------------------------------------------
  // The simplifier

  /** `simplify(expr)`: dispatch on the kind; every other kind comes back unchanged. */
  function Simplify(e: Expr, fuel: nat): Outcome<Expr>
    decreases fuel, 0, 0
  {
    match e
    case Sum(_) => if fuel == 0 then Err(OutOfFuel) else SimplifySum(e, fuel - 1)
    case Product(_) => if fuel == 0 then Err(OutOfFuel) else SimplifyProduct(e, fuel - 1)
    case Fraction(_, _) => if fuel == 0 then Err(OutOfFuel) else SimplifyFraction(e, fuel - 1)
    case Power(_, _) => if fuel == 0 then Err(OutOfFuel) else SimplifyPower(e, fuel - 1)
    case _ => Ok(e)
  }

  /** `list.map(simplify)`; the first throw wins. */
  function MapSimplify(s: seq<Expr>, fuel: nat): (r: Outcome<seq<Expr>>)
    decreases fuel, 1, |s|
    ensures r.Ok? ==> |r.value| == |s|
  {
    if s == [] then Ok([])
    else
      var x :- Simplify(s[0], fuel);
      var rest :- MapSimplify(s[1..], fuel);
      Ok([x] + rest)
  }

  /** The combining step of `combineElements`: `simplify(product([n, head]))` for sums,
      `simplify(power(head, n))` for products. */
  function Combine(k: Assoc, n: Expr, head: Expr, fuel: nat): Outcome<Expr>
    decreases fuel, 1, 0
  {
    if k.SumNode? then Simplify(Product([n, head]), fuel) else Simplify(Power(head, n), fuel)
  }

  /** The reduce of `combineElements`: `s => simplify(sum([s, coeff]))` from the head's coefficient. */
  function FoldCoefficients(like: seq<Term>, acc: Expr, fuel: nat): Outcome<Expr>
    decreases fuel, 1, |like|
  {
    if like == [] then Ok(acc)
    else
      var s :- Simplify(Sum([acc, like[0].coeff]), fuel);
      FoldCoefficients(like[1..], s, fuel)
  }

  /** `tail.filter(({ expr }) => identical(expr, x))`: the terms like `x`. */
  function LikeTerms(terms: seq<Term>, x: Expr): (r: seq<Term>)
    ensures |r| <= |terms|
    ensures forall i :: 0 <= i < |r| ==> r[i] in terms && Identical(r[i].expr, x)
    ensures forall i :: 0 <= i < |terms| && Identical(terms[i].expr, x) ==> terms[i] in r
  {
    if terms == [] then []
    else (if Identical(terms[0].expr, x) then [terms[0]] else []) + LikeTerms(terms[1..], x)
  }

  /** `tail.filter(({ expr }) => !identical(x, expr))`: the terms unlike `x`. */
  function UnlikeTerms(terms: seq<Term>, x: Expr): (r: seq<Term>)
    ensures |r| <= |terms|
    ensures forall i :: 0 <= i < |r| ==> r[i] in terms && !Identical(x, r[i].expr)
    ensures forall i :: 0 <= i < |terms| && !Identical(x, terms[i].expr) ==> terms[i] in r
  {
    if terms == [] then []
    else (if !Identical(x, terms[0].expr) then [terms[0]] else []) + UnlikeTerms(terms[1..], x)
  }

  /** `combineElements(withCoeffs, combine)`: the head absorbs every later term whose
      expression is identical to its own, then the rest is combined. */
  function CombineElements(list: seq<Term>, k: Assoc, fuel: nat): (r: Outcome<seq<Expr>>)
    decreases fuel, 2, |list|
    ensures r.Ok? ==> |r.value| <= |list|
  {
    if list == [] then Ok([])
    else
      var head := list[0];
      var like := LikeTerms(list[1..], head.expr);
      var n :- FoldCoefficients(like, head.coeff, fuel);
      var rest := UnlikeTerms(list[1..], head.expr);
      var newElement :- Combine(k, n, head.expr, fuel);
      var others :- CombineElements(rest, k, fuel);
      Ok([newElement] + others)
  }

  /** `simplifySum` (expression.js:322-370): flatten, simplify each summand, then combine. */
  function SimplifySum(e: Expr, fuel: nat): Outcome<Expr>
    requires e.Sum?
    decreases fuel, 5, 0
  {
    var summands :- MapSimplify(FlattenList(SumNode, e.summands), fuel);
    CombineSummands(summands, fuel)
  }

  /** The rest of `simplifySum` (expression.js:329-369): fold the numbers, merge like terms by
      adding coefficients, drop zeros. */
  function CombineSummands(summands: seq<Expr>, fuel: nat): Outcome<Expr>
    decreases fuel, 4, 0
  {
    SumWithConstant(FilterKind(summands, NumberTag, false),
                    Number(SumValues(FilterKind(summands, NumberTag, true))), fuel)
  }

  /** The non-numeric summands with the folded number `num`: the number alone when there are
      none, otherwise like terms merged, `num` pushed last and zeros dropped. */
  function SumWithConstant(nonNumerical: seq<Expr>, num: Expr, fuel: nat): Outcome<Expr>
    decreases fuel, 3, 0
  {
    if nonNumerical == [] then Ok(num)
    else
      var withCoeffs :- CoefficientTerms(nonNumerical);
      var combined :- CombineElements(withCoeffs, SumNode, fuel);
      Ok(Collect(SumNode, WithoutIdenticalTo(combined + [num], 0.0)))
  }

  /** `simplifyProduct` (expression.js:372-444): no factors is one, a single factor is
      returned as it is; otherwise flatten, simplify each factor, then combine. */
  function SimplifyProduct(e: Expr, fuel: nat): Outcome<Expr>
    requires e.Product?
    decreases fuel, 5, 0
  {
    if |e.factors| == 0 then Ok(Number(1.0))
    else if |e.factors| == 1 then Ok(e.factors[0])
    else
      var factors :- MapSimplify(FlattenList(ProductNode, e.factors), fuel);
      MultiplyFactors(factors, fuel)
  }

  predicate HasFraction(factors: seq<Expr>)
  {
    exists i :: 0 <= i < |factors| && factors[i].Fraction?
  }

  /** The rest of `simplifyProduct` (expression.js:387-443): a Fraction among the factors
      turns the product into one simplified Fraction; otherwise sums are expanded and the
      factors combined. */
  function MultiplyFactors(factors: seq<Expr>, fuel: nat): Outcome<Expr>
    decreases fuel, 4, 0
  {
    if HasFraction(factors) then
      var fractions := FilterKind(factors, FractionTag, true);
      var nonFractions := FilterKind(factors, FractionTag, false);
      Simplify(Fraction(Product(Numerators(fractions) + nonFractions), Product(Denominators(fractions))), fuel)
    else
      var expanded :- ExpandFactors(factors, fuel);
      CombineFactors(expanded, fuel)
  }

  /** "Expand sums" (expression.js:398-413): with more than one Sum among the factors, they
      are multiplied out into one simplified Sum placed after the other factors. */
  function ExpandFactors(factors: seq<Expr>, fuel: nat): Outcome<seq<Expr>>
    decreases fuel, 3, 0
  {
    var sums := FilterKind(factors, SumTag, true);
    var nonSums := FilterKind(factors, SumTag, false);
    if |sums| > 1 then
      var expanded :- ExpandSums(sums[0], sums[1..], fuel);
      var s :- Simplify(expanded, fuel);
      Ok(nonSums + [s])
    else Ok(factors)
  }

  /** The for-of loop over `sums.slice(1)`: each step replaces `expanded` by the sum of the
      simplified pairwise products of its summands with those of the next sum. */
  function ExpandSums(expanded: Expr, rest: seq<Expr>, fuel: nat): Outcome<Expr>
    requires expanded.Sum?
    requires forall i :: 0 <= i < |rest| ==> rest[i].Sum?
    decreases fuel, 2, |rest|
  {
    if rest == [] then Ok(expanded)
    else
      var newSummands :- MapSimplifyPairs(ListUtil.Pairs(expanded.summands, rest[0].summands), fuel);
      ExpandSums(Sum(newSummands), rest[1..], fuel)
  }

  /** `.map(([a, b]) => simplify(product([a, b])))`. */
  function MapSimplifyPairs(pairs: seq<(Expr, Expr)>, fuel: nat): (r: Outcome<seq<Expr>>)
    decreases fuel, 1, |pairs|
    ensures r.Ok? ==> |r.value| == |pairs|
  {
    if pairs == [] then Ok([])
    else
      var x :- Simplify(Product([pairs[0].0, pairs[0].1]), fuel);
      var rest :- MapSimplifyPairs(pairs[1..], fuel);
      Ok([x] + rest)
  }

  /** The end of `simplifyProduct` (expression.js:415-443): fold the numbers, merge equal
      bases by adding exponents, then a zero factor wins and factors of one are dropped. */
  function CombineFactors(factors: seq<Expr>, fuel: nat): Outcome<Expr>
    decreases fuel, 3, 1
  {
    ProductWithConstant(FilterKind(factors, NumberTag, false),
                        Number(ProductValues(FilterKind(factors, NumberTag, true))), fuel)
  }

  /** The non-numeric factors with the folded number `num`: the number alone when there are
      none, otherwise equal bases merged, `num` pushed last, then a zero wins and ones are
      dropped. */
  function ProductWithConstant(nonNumerical: seq<Expr>, num: Expr, fuel: nat): Outcome<Expr>
    decreases fuel, 3, 0
  {
    if nonNumerical == [] then Ok(num)
    else
      var combined :- CombineElements(ExponentTerms(nonNumerical), ProductNode, fuel);
      var all := combined + [num];
      if AnyIdenticalTo(all, 0.0) then Ok(Number(0.0))
      else Ok(Collect(ProductNode, WithoutIdenticalTo(all, 1.0)))
  }

  /** `reduceNonNumericalFraction(numerator, denominator)` (expression.js:446-470). */
  function ReduceNonNumericalFraction(numerator: seq<Expr>, denominator: seq<Expr>, fuel: nat)
    : Outcome<(seq<Expr>, seq<Expr>)>
    decreases fuel, 3, 0
  {
    ReduceStep(numerator, [], denominator, fuel)
  }

  /** The for loop over the numerator's factors, from the state (`uniqueNumerator`,
      `uniqueDenominator`) with `todo` still to visit; the first throw ends it. */
  function ReduceStep(todo: seq<Expr>, uniqueNumerator: seq<Expr>, uniqueDenominator: seq<Expr>, fuel: nat)
    : Outcome<(seq<Expr>, seq<Expr>)>
    decreases fuel, 2, |todo|
  {
    if todo == [] then Ok((uniqueNumerator, uniqueDenominator))
    else
      match ReduceFactor(todo[0], uniqueNumerator, uniqueDenominator, fuel)
      case Err(e) => Err(e)
      case Ok((n, d)) => ReduceStep(todo[1..], n, d, fuel)
  }

  /** One iteration of that loop. A factor whose base matches a denominator factor takes
      that factor out and leaves the exponent difference: a negative number goes to the end
      of the denominator, a nonzero difference to the numerator; a factor with no match goes
      to the numerator as it is. */
  function ReduceFactor(factor: Expr, uniqueNumerator: seq<Expr>, uniqueDenominator: seq<Expr>, fuel: nat)
    : Outcome<(seq<Expr>, seq<Expr>)>
    decreases fuel, 2, 0
  {
    var base := Base(factor);
    match FindIndex((f: Expr) => Identical(base, Base(f)), uniqueDenominator)
    case None => Ok((uniqueNumerator + [factor], uniqueDenominator))
    case Some(i) =>
      var diff :- Simplify(Subtraction(Exponent(factor), Exponent(uniqueDenominator[i])), fuel);
      var remaining := RemoveAt(uniqueDenominator, i);
      if diff.Number? && diff.value < 0.0 then
        var p :- Simplify(Power(base, Number(-diff.value)), fuel);
        Ok((uniqueNumerator, remaining + [p]))
      else if !Identical(diff, Number(0.0)) then
        var p :- Simplify(Power(base, diff), fuel);
        Ok((uniqueNumerator + [p], remaining))
      else
        Ok((uniqueNumerator, remaining))
  }

  /** The nested-fraction step of `simplifyFraction` as written (expression.js:476-487): the
      factor lists `newNumerator` and `newDenominator`. When only one side is a fraction,
      the other side is in neither list. */
  function CollapseNestedAsWritten(numerator: Expr, denominator: Expr): (seq<Expr>, seq<Expr>)
  {
    ((if numerator.Fraction? then [numerator.numerator] else []) +
     (if denominator.Fraction? then [denominator.denominator] else []),
     (if numerator.Fraction? then [numerator.denominator] else []) +
     (if denominator.Fraction? then [denominator.numerator] else []))
  }

  /** The nested-fraction step with the non-fraction side kept: (a/b)/c -> a/(b*c) and
      a/(b/c) -> (a*c)/b. */
  function CollapseNested(numerator: Expr, denominator: Expr): (seq<Expr>, seq<Expr>)
  {
    ((if numerator.Fraction? then [numerator.numerator] else [numerator]) +
     (if denominator.Fraction? then [denominator.denominator] else []),
     (if numerator.Fraction? then [numerator.denominator] else []) +
     (if denominator.Fraction? then [denominator.numerator] else [denominator]))
  }

  /** When both sides are fractions, the two versions agree. */
  lemma CollapseNestedAgreesOnTwoFractions(numerator: Expr, denominator: Expr)
    requires numerator.Fraction? && denominator.Fraction?
    ensures CollapseNested(numerator, denominator) == CollapseNestedAsWritten(numerator, denominator)
  {
  }

  /** As written, a/(b/c) collapses to the lists [c] over [b], and (a/b)/c to [a] over [b]:
      `a`, respectively `c`, is lost. */
  lemma CollapseNestedAsWrittenLosesSide()
    ensures CollapseNestedAsWritten(Identifier("a"), Fraction(Identifier("b"), Identifier("c")))
            == ([Identifier("c")], [Identifier("b")])
    ensures CollapseNestedAsWritten(Fraction(Identifier("a"), Identifier("b")), Identifier("c"))
            == ([Identifier("a")], [Identifier("b")])
  {
    var (n1, d1) := CollapseNestedAsWritten(Identifier("a"), Fraction(Identifier("b"), Identifier("c")));
    assert n1 == [Identifier("c")] && d1 == [Identifier("b")];
    var (n2, d2) := CollapseNestedAsWritten(Fraction(Identifier("a"), Identifier("b")), Identifier("c"));
    assert n2 == [Identifier("a")] && d2 == [Identifier("b")];
  }

  /** The value of a factor list when each factor `x` has the value `val(x)`. */
  function ListValue(s: seq<Expr>, val: Expr -> real): real
  {
    if s == [] then 1.0 else val(s[0]) * ListValue(s[1..], val)
  }

  /** The value of one side of a fraction: a Fraction's parts divided, any other side as
      `val` has it. */
  function SideValue(x: Expr, val: Expr -> real): real
  {
    if x.Fraction? && val(x.denominator) != 0.0 then val(x.numerator) / val(x.denominator) else val(x)
  }

  lemma ListValueOfOne(x: Expr, val: Expr -> real)
    ensures ListValue([x], val) == val(x)
  {
    assert [x][1..] == [];
  }

  lemma ListValueOfTwo(x: Expr, y: Expr, val: Expr -> real)
    ensures ListValue([x, y], val) == val(x) * val(y)
  {
    assert [x, y][1..] == [y];
    ListValueOfOne(y, val);
  }

  /** Dividing by a quotient is multiplying by its inverse, on either side. */
  lemma QuotientOfQuotients(a: real, b: real, c: real, e: real)
    requires b != 0.0 && c != 0.0 && e != 0.0
    ensures b * c != 0.0
    ensures (a * e) / (b * c) == (a / b) / (c / e)
  {
    calc {
      (a / b) / (c / e);
      (a / b) * (e / c);
      (a * e) / (b * c);
    }
  }

  lemma QuotientOverProduct(a: real, b: real, c: real)
    requires b != 0.0 && c != 0.0
    ensures b * c != 0.0
    ensures a / (b * c) == (a / b) / c
  {
  }

  lemma ProductOverDivisor(a: real, c: real, e: real)
    requires c != 0.0 && e != 0.0
    ensures (a * e) / c == a / (c / e)
  {
    calc {
      a / (c / e);
      a * (e / c);
      (a * e) / c;
    }
  }

  /** The two factor lists of the corrected step, case by case. */
  lemma CollapseNestedLists(numerator: Expr, denominator: Expr)
    ensures numerator.Fraction? && denominator.Fraction? ==>
      CollapseNested(numerator, denominator).0 == [numerator.numerator, denominator.denominator] &&
      CollapseNested(numerator, denominator).1 == [numerator.denominator, denominator.numerator]
    ensures numerator.Fraction? && !denominator.Fraction? ==>
      CollapseNested(numerator, denominator).0 == [numerator.numerator] &&
      CollapseNested(numerator, denominator).1 == [numerator.denominator, denominator]
    ensures !numerator.Fraction? && denominator.Fraction? ==>
      CollapseNested(numerator, denominator).0 == [numerator, denominator.denominator] &&
      CollapseNested(numerator, denominator).1 == [denominator.numerator]
    ensures !numerator.Fraction? && !denominator.Fraction? ==>
      CollapseNested(numerator, denominator).0 == [numerator] &&
      CollapseNested(numerator, denominator).1 == [denominator]
  {
  }

  /** What the nested-fraction step is for: whatever values the parts have (no denominator
      zero), the two lists form a quotient of the same value as `numerator / denominator`. */
  lemma CollapseNestedKeepsValue(numerator: Expr, denominator: Expr, val: Expr -> real)
    requires numerator.Fraction? ==> val(numerator.denominator) != 0.0
    requires denominator.Fraction? ==> val(denominator.numerator) != 0.0 && val(denominator.denominator) != 0.0
    requires !denominator.Fraction? ==> val(denominator) != 0.0
    ensures SideValue(denominator, val) != 0.0
    ensures ListValue(CollapseNested(numerator, denominator).1, val) != 0.0
    ensures ListValue(CollapseNested(numerator, denominator).0, val) / ListValue(CollapseNested(numerator, denominator).1, val)
            == SideValue(numerator, val) / SideValue(denominator, val)
  {
    CollapseNestedLists(numerator, denominator);
    var upper := CollapseNested(numerator, denominator).0;
    var lower := CollapseNested(numerator, denominator).1;
    if numerator.Fraction? && denominator.Fraction? {
      var a, b, c, e := val(numerator.numerator), val(numerator.denominator),
                        val(denominator.numerator), val(denominator.denominator);
      ListValueOfTwo(numerator.numerator, denominator.denominator, val);
      ListValueOfTwo(numerator.denominator, denominator.numerator, val);
      assert ListValue(upper, val) == a * e && ListValue(lower, val) == b * c;
      assert SideValue(numerator, val) == a / b && SideValue(denominator, val) == c / e;
      QuotientOfQuotients(a, b, c, e);
    } else if numerator.Fraction? {
      var a, b, c := val(numerator.numerator), val(numerator.denominator), val(denominator);
      ListValueOfOne(numerator.numerator, val);
      ListValueOfTwo(numerator.denominator, denominator, val);
      assert ListValue(upper, val) == a && ListValue(lower, val) == b * c;
      assert SideValue(numerator, val) == a / b && SideValue(denominator, val) == c;
      QuotientOverProduct(a, b, c);
    } else if denominator.Fraction? {
      var a, c, e := val(numerator), val(denominator.numerator), val(denominator.denominator);
      ListValueOfTwo(numerator, denominator.denominator, val);
      ListValueOfOne(denominator.numerator, val);
      assert ListValue(upper, val) == a * e && ListValue(lower, val) == c;
      assert SideValue(numerator, val) == a && SideValue(denominator, val) == c / e;
      ProductOverDivisor(a, c, e);
    } else {
      ListValueOfOne(numerator, val);
      ListValueOfOne(denominator, val);
    }
  }

  /** As written, a/(b/c) with every part worth 2 collapses to a quotient worth 1, not 2. */
  lemma CollapseNestedAsWrittenChangesValue()
    ensures CollapseNestedAsWritten(Identifier("a"), Fraction(Identifier("b"), Identifier("c"))) == ([Identifier("c")], [Identifier("b")])
    ensures ListValue([Identifier("b")], _ => 2.0) == 2.0
    ensures ListValue([Identifier("c")], _ => 2.0) / ListValue([Identifier("b")], _ => 2.0) == 1.0
    ensures SideValue(Identifier("a"), _ => 2.0) / SideValue(Fraction(Identifier("b"), Identifier("c")), _ => 2.0) == 2.0
  {
    CollapseNestedAsWrittenLosesSide();
  }

  /** `simplifyFraction` (expression.js:472-537), with the nested-fraction step corrected. */
  function SimplifyFraction(e: Expr, fuel: nat): Outcome<Expr>
    requires e.Fraction?
    decreases fuel, 5, 0
  {
    var numerator :- Simplify(e.numerator, fuel);
    var denominator :- Simplify(e.denominator, fuel);
    if numerator.Fraction? || denominator.Fraction? then
      var (newNumerator, newDenominator) := CollapseNested(numerator, denominator);
      var n :- Simplify(Product(newNumerator), fuel);
      var d :- Simplify(Product(newDenominator), fuel);
      ReduceFraction(n, d, fuel)
    else
      ReduceFraction(numerator, denominator, fuel)
  }

  /** "Reduce fraction" (expression.js:494-536): split each side into its first Number factor
      and its other factors, cancel common bases, rebuild both sides, then check, in this
      order, for a zero numerator, a denominator of one and a zero denominator. */
  function ReduceFraction(numerator: Expr, denominator: Expr, fuel: nat): Outcome<Expr>
    decreases fuel, 3, 0
  {
    var numeratorRest := FilterKind(Factors(numerator), NumberTag, false);
    var denominatorRest := FilterKind(Factors(denominator), NumberTag, false);
    var numeratorNumber := FindIndex((x: Expr) => x.Number?, Factors(numerator));
    var denominatorNumber := FindIndex((x: Expr) => x.Number?, Factors(denominator));
    var reduced :-
      if |numeratorRest| > 0 && |denominatorRest| > 0
      then ReduceStep(numeratorRest, [], denominatorRest, fuel)
      else Ok((numeratorRest, denominatorRest));
    var n :- Simplify(Product(
               (if numeratorNumber.Some? then [Factors(numerator)[numeratorNumber.value]] else []) + reduced.0), fuel);
    var d :- Simplify(Product(
               (if denominatorNumber.Some? then [Factors(denominator)[denominatorNumber.value]] else []) + reduced.1), fuel);
    FinishFraction(n, d)
  }

  /** The checks that end "Reduce fraction", in the source's order: a zero numerator, a
      denominator of one, a zero denominator. */
  function FinishFraction(n: Expr, d: Expr): Outcome<Expr>
  {
    if Identical(n, Number(0.0)) then Ok(Number(0.0))
    else if Identical(d, Number(1.0)) then Ok(n)
    else if Identical(d, Number(0.0)) then Err(DivisionByZero)
    else Ok(Fraction(n, d))
  }

  /** `simplifyPower` (expression.js:539-564). */
  function SimplifyPower(e: Expr, fuel: nat): Outcome<Expr>
    requires e.Power?
    decreases fuel, 5, 0
  {
    var base :- Simplify(e.base, fuel);
    var exponent :- Simplify(e.exponent, fuel);
    if Identical(exponent, Number(0.0)) && Identical(base, Number(0.0)) then Err(ZeroToTheZero)
    else if Identical(exponent, Number(0.0)) then Ok(Number(1.0))
    else if Identical(exponent, Number(1.0)) then Ok(base)
    else if Identical(base, Number(0.0)) then Ok(Number(0.0))
    else if Identical(base, Number(1.0)) then Ok(Number(1.0))
    else Ok(Power(base, exponent))
  }

  // ---------------------------------------------------------------------------
  // The two loops, step by step

  /** The for-of loop of "Expand sums" (expression.js:402-411), rebuilding `expanded` with
      `listUtil.product`. */
  method ExpandSumsLoop(sums: seq<Expr>, fuel: nat) returns (r: Outcome<Expr>)
    requires |sums| > 1
    requires forall i :: 0 <= i < |sums| ==> sums[i].Sum?
    ensures r == ExpandSums(sums[0], sums[1..], fuel)
  {
    var expanded := sums[0];
    for k := 1 to |sums|
      invariant expanded.Sum?
      invariant ExpandSums(expanded, sums[k..], fuel) == ExpandSums(sums[0], sums[1..], fuel)
    {
      var pairs := ListUtil.Product(expanded.summands, sums[k].summands);
      var newSummands := MapSimplifyPairs(pairs, fuel);
      if newSummands.Err? {
        return Err(newSummands.error);
      }
      assert sums[k..][1..] == sums[k + 1..];
      expanded := Sum(newSummands.value);
    }
    return Ok(expanded);
  }

  /** `reduceNonNumericalFraction` as the source runs it: one pass over the numerator's
      factors, splicing and pushing `uniqueNumerator` and `uniqueDenominator`. */
  method ReduceNonNumericalFractionLoop(numerator: seq<Expr>, denominator: seq<Expr>, fuel: nat)
    returns (r: Outcome<(seq<Expr>, seq<Expr>)>)
    ensures r == ReduceNonNumericalFraction(numerator, denominator, fuel)
  {
    var uniqueNumerator: seq<Expr> := [];
    var uniqueDenominator := denominator;
    for k := 0 to |numerator|
      invariant ReduceStep(numerator[k..], uniqueNumerator, uniqueDenominator, fuel)
                == ReduceNonNumericalFraction(numerator, denominator, fuel)
    {
      ReduceStepVisits(numerator, k, uniqueNumerator, uniqueDenominator, fuel);
      var step := ReduceFactorStep(numerator[k], uniqueNumerator, uniqueDenominator, fuel);
      if step.Err? {
        return Err(step.error);
      }
      uniqueNumerator, uniqueDenominator := step.value.0, step.value.1;
    }
    return Ok((uniqueNumerator, uniqueDenominator));
  }

  /** The body of that loop for one numerator factor: splice out the matching denominator
      factor and push the exponent difference to the side its sign calls for. */
  method ReduceFactorStep(factor: Expr, uniqueNumerator: seq<Expr>, uniqueDenominator: seq<Expr>, fuel: nat)
    returns (r: Outcome<(seq<Expr>, seq<Expr>)>)
    ensures r == ReduceFactor(factor, uniqueNumerator, uniqueDenominator, fuel)
  {
    var base := Base(factor);
    var i := FindIndex((f: Expr) => Identical(base, Base(f)), uniqueDenominator);
    if i.None? {
      return Ok((uniqueNumerator + [factor], uniqueDenominator));
    }
    var diff := Simplify(Subtraction(Exponent(factor), Exponent(uniqueDenominator[i.value])), fuel);
    if diff.Err? {
      return Err(diff.error);
    }
    var remaining := RemoveAt(uniqueDenominator, i.value);
    if diff.value.Number? && diff.value.value < 0.0 {
      var p := Simplify(Power(base, Number(-diff.value.value)), fuel);
      if p.Err? {
        return Err(p.error);
      }
      return Ok((uniqueNumerator, remaining + [p.value]));
    } else if !Identical(diff.value, Number(0.0)) {
      var p := Simplify(Power(base, diff.value), fuel);
      if p.Err? {
        return Err(p.error);
      }
      return Ok((uniqueNumerator + [p.value], remaining));
    }
    return Ok((uniqueNumerator, remaining));
  }

  /** One turn of the loop in `ReduceNonNumericalFractionLoop`: the factor at `k` is reduced,
      then the loop goes on from `k + 1`. */
  lemma ReduceStepVisits(numerator: seq<Expr>, k: nat, uniqueNumerator: seq<Expr>, uniqueDenominator: seq<Expr>, fuel: nat)
    requires k < |numerator|
    ensures ReduceStep(numerator[k..], uniqueNumerator, uniqueDenominator, fuel) ==
            match ReduceFactor(numerator[k], uniqueNumerator, uniqueDenominator, fuel)
            case Err(e) => Err(e)
            case Ok((n, d)) => ReduceStep(numerator[k + 1..], n, d, fuel)
  {
    assert numerator[k..][1..] == numerator[k + 1..];
  }

  // ---------------------------------------------------------------------------
  // Properties

  /** Identifiers, Numbers, function calls and assignments come back unchanged. */
  lemma SimplifyLeavesAtomsUnchanged(e: Expr, fuel: nat)
    requires !(e.Sum? || e.Product? || e.Fraction? || e.Power?)
    ensures Simplify(e, fuel) == Ok(e)
  {
  }

  /** `list.map(simplify)` simplifies each element in place. */
  lemma {:induction false} MapSimplifyAt(s: seq<Expr>, fuel: nat, r: seq<Expr>)
    requires MapSimplify(s, fuel) == Ok(r)
    ensures |r| == |s|
    ensures forall i :: 0 <= i < |s| ==> Simplify(s[i], fuel) == Ok(r[i])
  {
    if s != [] {
      MapSimplifyAt(s[1..], fuel, r[1..]);
      assert forall i :: 1 <= i < |s| ==> s[1..][i - 1] == s[i] && r[1..][i - 1] == r[i];
    }
  }

  lemma {:induction false} MapSimplifyNumbers(s: seq<Expr>, fuel: nat)
    requires AllNumbers(s)
    ensures MapSimplify(s, fuel) == Ok(s)
  {
    if s != [] {
      MapSimplifyNumbers(s[1..], fuel);
      assert [s[0]] + s[1..] == s;
    }
  }

  lemma {:induction false} FlattenNumbers(k: Assoc, s: seq<Expr>)
    requires AllNumbers(s)
    ensures FlattenList(k, s) == s
  {
    if s != [] {
      FlattenNumbers(k, s[1..]);
      assert [s[0]] + s[1..] == s;
    }
  }

  /** A Number among the factors survives flattening. */
  lemma {:induction false} NumberSurvivesFlattening(k: Assoc, s: seq<Expr>, c: real)
    requires Number(c) in s
    ensures Number(c) in FlattenList(k, s)
  {
    if s[0] != Number(c) {
      NumberSurvivesFlattening(k, s[1..], c);
    }
  }

  /** An all-numeric sum folds to the one Number holding the sum of the values. */
  lemma SumOfNumbers(s: seq<Expr>, fuel: nat)
    requires fuel >= 1
    requires AllNumbers(s)
    ensures Simplify(Sum(s), fuel) == Ok(Number(SumValues(s)))
  {
    assert MapSimplify(FlattenList(SumNode, s), fuel - 1) == Ok(s) by {
      FlattenNumbers(SumNode, s);
      MapSimplifyNumbers(s, fuel - 1);
    }
    assert FilterKind(s, NumberTag, true) == s && FilterKind(s, NumberTag, false) == [] by {
      assert forall i :: 0 <= i < |s| ==> TypeTag(s[i]) == NumberTag;
      FilterKindAll(s, NumberTag, true);
      FilterKindNone(s, NumberTag, false);
    }
    assert CombineSummands(s, fuel - 1) == Ok(Number(SumValues(s)));
  }

  /** A product of two or more factors multiplies its flattened, simplified factors. */
  lemma ProductOfSimplified(s: seq<Expr>, fuel: nat, simplified: seq<Expr>)
    requires fuel >= 1
    requires |s| >= 2
    requires MapSimplify(FlattenList(ProductNode, s), fuel - 1) == Ok(simplified)
    ensures Simplify(Product(s), fuel) == MultiplyFactors(simplified, fuel - 1)
  {
    assert SimplifyProduct(Product(s), fuel - 1) == MultiplyFactors(simplified, fuel - 1);
  }

  /** The empty sum is 0: the numbers' reduce starts from 0 and nothing else is left. */
  lemma EmptySumIsZero(fuel: nat)
    requires fuel >= 1
    ensures Simplify(Sum([]), fuel) == Ok(Number(0.0))
  {
    assert FlattenList(SumNode, []) == [] && FilterKind([], NumberTag, false) == [] &&
           FilterKind([], NumberTag, true) == [] && SumValues([]) == 0.0;
    assert MapSimplify([], fuel - 1) == Ok([]);
    assert CombineSummands([], fuel - 1) == Ok(Number(0.0));
  }

  /** An all-numeric product of two or more factors folds to the Number holding the product
      of the values. */
  lemma ProductOfNumbers(s: seq<Expr>, fuel: nat)
    requires fuel >= 1
    requires |s| >= 2
    requires AllNumbers(s)
    ensures Simplify(Product(s), fuel) == Ok(Number(ProductValues(s)))
  {
    FlattenNumbers(ProductNode, s);
    MapSimplifyNumbers(s, fuel - 1);
    ProductOfSimplified(s, fuel, s);
    assert !HasFraction(s);
    assert forall i :: 0 <= i < |s| ==> TypeTag(s[i]) == NumberTag;
    FilterKindNone(s, SumTag, true);
    assert ExpandFactors(s, fuel - 1) == Ok(s);
    CombineFactorsOfNumbers(s, fuel - 1);
  }

  lemma CombineFactorsOfNumbers(s: seq<Expr>, fuel: nat)
    requires AllNumbers(s)
    ensures CombineFactors(s, fuel) == Ok(Number(ProductValues(s)))
  {
    assert forall i :: 0 <= i < |s| ==> TypeTag(s[i]) == NumberTag;
    FilterKindAll(s, NumberTag, true);
    FilterKindNone(s, NumberTag, false);
  }

  lemma {:induction false} FilterKindAppend(a: seq<Expr>, b: seq<Expr>, tag: nat, want: bool)
    ensures FilterKind(a + b, tag, want) == FilterKind(a, tag, want) + FilterKind(b, tag, want)
  {
    if a == [] {
      assert a + b == b;
    } else {
      assert (a + b)[1..] == a[1..] + b;
      FilterKindAppend(a[1..], b, tag, want);
    }
  }

  lemma {:induction false} SumValuesAppend(a: seq<Expr>, b: seq<Expr>)
    requires AllNumbers(a) && AllNumbers(b)
    ensures AllNumbers(a + b)
    ensures SumValues(a + b) == SumValues(a) + SumValues(b)
  {
    if a == [] {
      assert a + b == b;
    } else {
      assert (a + b)[1..] == a[1..] + b;
      SumValuesAppend(a[1..], b);
    }
  }

  lemma {:induction false} ProductValuesAppend(a: seq<Expr>, b: seq<Expr>)
    requires AllNumbers(a) && AllNumbers(b)
    ensures AllNumbers(a + b)
    ensures ProductValues(a + b) == ProductValues(a) * ProductValues(b)
  {
    if a == [] {
      assert a + b == b;
    } else {
      assert (a + b)[1..] == a[1..] + b;
      ProductValuesAppend(a[1..], b);
    }
  }

  lemma {:induction false} FlattenListAppend(k: Assoc, a: seq<Expr>, b: seq<Expr>)
    ensures FlattenList(k, a + b) == FlattenList(k, a) + FlattenList(k, b)
  {
    if a == [] {
      assert a + b == b;
    } else {
      assert (a + b)[1..] == a[1..] + b;
      FlattenListAppend(k, a[1..], b);
    }
  }

  /** Simplifying one more Number at the end of a list neither fails nor changes the rest. */
  lemma {:induction false} MapSimplifyAppendNumber(s: seq<Expr>, c: real, fuel: nat)
    ensures MapSimplify(s + [Number(c)], fuel) ==
            (match MapSimplify(s, fuel)
             case Ok(v) => Ok(v + [Number(c)])
             case Err(e) => Err(e))
  {
    if s == [] {
      var n := Number(c);
      assert s + [n] == [n];
      assert [n][1..] == [];
      assert Simplify(n, fuel) == Ok(n);
      assert [n] + [] == [] + [n];
    } else {
      var n := Number(c);
      assert (s + [n])[0] == s[0];
      assert (s + [n])[1..] == s[1..] + [n];
      MapSimplifyAppendNumber(s[1..], c, fuel);
      var x := Simplify(s[0], fuel);
      var rest := MapSimplify(s[1..], fuel);
      if x.Ok? && rest.Ok? {
        assert [x.value] + (rest.value + [n]) == ([x.value] + rest.value) + [n];
      }
    }
  }

  /** Zero is the identity of a sum: a Number(0) summand added at the end changes neither the
      result nor the error. */
  lemma ZeroSummandChangesNothing(s: seq<Expr>, fuel: nat)
    ensures Simplify(Sum(s + [Number(0.0)]), fuel) == Simplify(Sum(s), fuel)
  {
    if fuel >= 1 {
      var flat := FlattenList(SumNode, s);
      calc {
        Simplify(Sum(s + [Number(0.0)]), fuel);
        { SumUnfolds(s + [Number(0.0)], fuel); }
        SummandsCombined(MapSimplify(FlattenList(SumNode, s + [Number(0.0)]), fuel - 1), fuel - 1);
        { FlattenWithNumber(SumNode, s, 0.0); }
        SummandsCombined(MapSimplify(flat + [Number(0.0)], fuel - 1), fuel - 1);
        { MapSimplifyAppendNumber(flat, 0.0, fuel - 1);
          ZeroSummandCombined(MapSimplify(flat, fuel - 1), fuel - 1); }
        SummandsCombined(MapSimplify(flat, fuel - 1), fuel - 1);
        { SumUnfolds(s, fuel); }
        Simplify(Sum(s), fuel);
      }
    }
  }

  /** What `simplifySum` does with the outcome of simplifying the flattened summands. */
  function SummandsCombined(simplified: Outcome<seq<Expr>>, fuel: nat): Outcome<Expr>
  {
    match simplified
    case Ok(v) => CombineSummands(v, fuel)
    case Err(e) => Err(e)
  }

  lemma ZeroSummandCombined(simplified: Outcome<seq<Expr>>, fuel: nat)
    ensures SummandsCombined(
              match simplified
              case Ok(v) => Ok(v + [Number(0.0)])
              case Err(e) => Err(e), fuel) == SummandsCombined(simplified, fuel)
  {
    if simplified.Ok? {
      CombineSummandsZero(simplified.value, fuel);
    }
  }

  lemma SumUnfolds(s: seq<Expr>, fuel: nat)
    requires fuel >= 1
    ensures Simplify(Sum(s), fuel) == SummandsCombined(MapSimplify(FlattenList(SumNode, s), fuel - 1), fuel - 1)
  {
  }

  lemma FlattenWithNumber(k: Assoc, s: seq<Expr>, c: real)
    ensures FlattenList(k, s + [Number(c)]) == FlattenList(k, s) + [Number(c)]
  {
    FlattenListAppend(k, s, [Number(c)]);
    assert FlattenList(k, [Number(c)]) == [Number(c)];
  }

  lemma CombineSummandsZero(v: seq<Expr>, fuel: nat)
    ensures CombineSummands(v + [Number(0.0)], fuel) == CombineSummands(v, fuel)
  {
    NumbersWithZero(v);
    OthersWithZero(v);
  }

  lemma NumbersWithZero(v: seq<Expr>)
    ensures SumValues(FilterKind(v + [Number(0.0)], NumberTag, true)) == SumValues(FilterKind(v, NumberTag, true))
  {
    var zero := [Number(0.0)];
    var nv := FilterKind(v, NumberTag, true);
    assert FilterKind(v + zero, NumberTag, true) == nv + zero by {
      FilterKindAppend(v, zero, NumberTag, true);
      assert FilterKind(zero, NumberTag, true) == zero;
    }
    SumValuesAppend(nv, zero);
  }

  lemma OthersWithZero(v: seq<Expr>)
    ensures FilterKind(v + [Number(0.0)], NumberTag, false) == FilterKind(v, NumberTag, false)
  {
    var zero := [Number(0.0)];
    FilterKindAppend(v, zero, NumberTag, false);
    assert FilterKind(zero, NumberTag, false) == [];
    assert FilterKind(v, NumberTag, false) + [] == FilterKind(v, NumberTag, false);
  }

  /** A factor one among the numbers leaves their product unchanged. */
  lemma {:induction false} ProductValuesUnit(a: seq<Expr>, b: seq<Expr>)
    requires AllNumbers(a) && AllNumbers(b)
    ensures AllNumbers(a + [Number(1.0)] + b) && AllNumbers(a + b)
    ensures ProductValues(a + [Number(1.0)] + b) == ProductValues(a + b)
  {
    if a == [] {
      assert a + [Number(1.0)] + b == [Number(1.0)] + b;
      assert ([Number(1.0)] + b)[1..] == b;
      assert a + b == b;
    } else {
      assert (a + [Number(1.0)] + b)[1..] == a[1..] + [Number(1.0)] + b;
      assert (a + b)[1..] == a[1..] + b;
      ProductValuesUnit(a[1..], b);
    }
  }

  /** A Number(1) placed anywhere among the factors the end of `simplifyProduct` combines
      changes nothing. */
  lemma CombineFactorsUnit(a: seq<Expr>, b: seq<Expr>, fuel: nat)
    ensures CombineFactors(a + [Number(1.0)] + b, fuel) == CombineFactors(a + b, fuel)
  {
    var one := [Number(1.0)];
    var na := FilterKind(a, NumberTag, true);
    var nb := FilterKind(b, NumberTag, true);
    assert FilterKind(a + one + b, NumberTag, true) == na + one + nb by {
      FilterKindAppend(a + one, b, NumberTag, true);
      FilterKindAppend(a, one, NumberTag, true);
      assert FilterKind(one, NumberTag, true) == one;
    }
    assert FilterKind(a + b, NumberTag, true) == na + nb by {
      FilterKindAppend(a, b, NumberTag, true);
    }
    assert FilterKind(a + one + b, NumberTag, false) == FilterKind(a + b, NumberTag, false) by {
      FilterKindAppend(a + one, b, NumberTag, false);
      FilterKindAppend(a, one, NumberTag, false);
      FilterKindAppend(a, b, NumberTag, false);
      assert FilterKind(one, NumberTag, false) == [];
      assert FilterKind(a, NumberTag, false) + [] == FilterKind(a, NumberTag, false);
    }
    ProductValuesUnit(na, nb);
  }

  /** One is the identity of a product: a Number(1) factor added at the end of a product of
      two or more factors changes neither the result nor the error, provided no factor
      simplifies to a Fraction. */
  lemma UnitFactorChangesNothing(s: seq<Expr>, fuel: nat, simplified: seq<Expr>)
    requires fuel >= 1
    requires |s| >= 2
    requires MapSimplify(FlattenList(ProductNode, s), fuel - 1) == Ok(simplified)
    requires !HasFraction(simplified)
    ensures Simplify(Product(s + [Number(1.0)]), fuel) == Simplify(Product(s), fuel)
  {
    var one := [Number(1.0)];
    calc {
      Simplify(Product(s + one), fuel);
    == { UnitSurvivesSimplifying(s, fuel - 1, simplified);
         ProductOfSimplified(s + one, fuel, simplified + one); }
      MultiplyFactors(simplified + one, fuel - 1);
    == { MultiplyFactorsUnit(simplified, fuel - 1); }
      MultiplyFactors(simplified, fuel - 1);
    == { ProductOfSimplified(s, fuel, simplified); }
      Simplify(Product(s), fuel);
    }
  }

  lemma UnitSurvivesSimplifying(s: seq<Expr>, fuel: nat, simplified: seq<Expr>)
    requires MapSimplify(FlattenList(ProductNode, s), fuel) == Ok(simplified)
    ensures MapSimplify(FlattenList(ProductNode, s + [Number(1.0)]), fuel) == Ok(simplified + [Number(1.0)])
  {
    FlattenWithNumber(ProductNode, s, 1.0);
    MapSimplifyAppendNumber(FlattenList(ProductNode, s), 1.0, fuel);
  }

  lemma MultiplyFactorsUnit(v: seq<Expr>, fuel: nat)
    requires !HasFraction(v)
    ensures MultiplyFactors(v + [Number(1.0)], fuel) == MultiplyFactors(v, fuel)
  {
    var one := [Number(1.0)];
    assert !HasFraction(v + one) by {
      forall i | 0 <= i < |v + one|
        ensures !(v + one)[i].Fraction?
      {
        if i < |v| {
          assert (v + one)[i] == v[i];
        }
      }
    }
    var sums := FilterKind(v, SumTag, true);
    var nonSums := FilterKind(v, SumTag, false);
    assert FilterKind(v + one, SumTag, true) == sums by {
      FilterKindAppend(v, one, SumTag, true);
      assert FilterKind(one, SumTag, true) == [];
      assert sums + [] == sums;
    }
    assert FilterKind(v + one, SumTag, false) == nonSums + one by {
      FilterKindAppend(v, one, SumTag, false);
      assert FilterKind(one, SumTag, false) == one;
    }
    if |sums| > 1 {
      var expanded := ExpandSums(sums[0], sums[1..], fuel);
      if expanded.Ok? {
        var x := Simplify(expanded.value, fuel);
        if x.Ok? {
          assert ExpandFactors(v + one, fuel) == Ok(nonSums + one + [x.value]);
          assert ExpandFactors(v, fuel) == Ok(nonSums + [x.value]);
          CombineFactorsUnit(nonSums, [x.value], fuel);
        }
      }
    } else {
      assert ExpandFactors(v + one, fuel) == Ok(v + one);
      CombineFactorsUnit(v, [], fuel);
      assert v + one + [] == v + one && v + [] == v;
    }
  }

  /** The end of `simplifyProduct` yields zero for a zero factor. */
  lemma CombineFactorsZero(factors: seq<Expr>, fuel: nat)
    requires Number(0.0) in factors
    ensures CombineFactors(factors, fuel).Ok? ==> CombineFactors(factors, fuel).value == Number(0.0)
  {
    var numerical := FilterKind(factors, NumberTag, true);
    assert Number(0.0) in numerical;
    ProductValuesZero(numerical);
    var num := Number(ProductValues(numerical));
    var nonNumerical := FilterKind(factors, NumberTag, false);
    if nonNumerical != [] {
      var combined := CombineElements(ExponentTerms(nonNumerical), ProductNode, fuel);
      if combined.Ok? {
        var all := combined.value + [num];
        AnyIdenticalToIsMembership(all, 0.0);
      }
    }
  }

  /** No factors gives one; a single factor is returned as it is, not simplified. */
  lemma ShortProducts(x: Expr, fuel: nat)
    requires fuel >= 1
    ensures Simplify(Product([]), fuel) == Ok(Number(1.0))
    ensures Simplify(Product([x]), fuel) == Ok(x)
  {
  }

  /** A zero factor makes the product zero, provided no factor simplifies to a Fraction
      (a Fraction factor hands the whole product to `simplifyFraction`). */
  lemma ZeroFactorGivesZero(s: seq<Expr>, fuel: nat, simplified: seq<Expr>)
    requires fuel >= 1
    requires |s| >= 2
    requires Number(0.0) in s
    requires MapSimplify(FlattenList(ProductNode, s), fuel - 1) == Ok(simplified)
    requires !HasFraction(simplified)
    ensures Simplify(Product(s), fuel).Ok? ==> Simplify(Product(s), fuel).value == Number(0.0)
  {
    NumberSurvivesFlattening(ProductNode, s, 0.0);
    ZeroSurvivesSimplifying(FlattenList(ProductNode, s), fuel - 1, simplified);
    ProductOfSimplified(s, fuel, simplified);
    MultiplyFactorsZero(simplified, fuel - 1);
  }

  lemma ZeroSurvivesSimplifying(flat: seq<Expr>, fuel: nat, simplified: seq<Expr>)
    requires Number(0.0) in flat
    requires MapSimplify(flat, fuel) == Ok(simplified)
    ensures Number(0.0) in simplified
  {
    MapSimplifyAt(flat, fuel, simplified);
    var j :| 0 <= j < |flat| && flat[j] == Number(0.0);
    assert simplified[j] == Number(0.0);
  }

  lemma MultiplyFactorsZero(factors: seq<Expr>, fuel: nat)
    requires Number(0.0) in factors
    requires !HasFraction(factors)
    ensures MultiplyFactors(factors, fuel).Ok? ==> MultiplyFactors(factors, fuel).value == Number(0.0)
  {
    var expanded := ExpandFactors(factors, fuel);
    if expanded.Ok? {
      var nonSums := FilterKind(factors, SumTag, false);
      assert TypeTag(Number(0.0)) != SumTag;
      assert Number(0.0) in nonSums;
      assert Number(0.0) in expanded.value;
      CombineFactorsZero(expanded.value, fuel);
    }
  }

  /** The rules of `simplifyPower`, in the order the source checks them, in terms of the
      simplified base `b` and exponent `x`. */
  lemma PowerRules(base: Expr, exponent: Expr, fuel: nat, b: Expr, x: Expr)
    requires fuel >= 1
    requires Simplify(base, fuel - 1) == Ok(b)
    requires Simplify(exponent, fuel - 1) == Ok(x)
    ensures Simplify(Power(base, exponent), fuel).Err? <==> x == Number(0.0) && b == Number(0.0)
    ensures x == Number(0.0) && b != Number(0.0) ==> Simplify(Power(base, exponent), fuel) == Ok(Number(1.0))
    ensures x == Number(1.0) ==> Simplify(Power(base, exponent), fuel) == Ok(b)
    ensures x != Number(0.0) && x != Number(1.0) && b == Number(0.0) ==>
              Simplify(Power(base, exponent), fuel) == Ok(Number(0.0))
    ensures x != Number(0.0) && b == Number(1.0) ==> Simplify(Power(base, exponent), fuel) == Ok(Number(1.0))
    ensures x != Number(0.0) && x != Number(1.0) && b != Number(0.0) && b != Number(1.0) ==>
              Simplify(Power(base, exponent), fuel) == Ok(Power(b, x))
  {
    IdenticalToNumber(x, 0.0);
    IdenticalToNumber(x, 1.0);
    IdenticalToNumber(b, 0.0);
    IdenticalToNumber(b, 1.0);
  }
}
