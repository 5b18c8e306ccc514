# alta math engine, modelled in Dafny

This project models the math engine of alta, a small calculator app. The engine has five parts:

- **Expression trees** (`src/math/expression.js`): identifiers, numbers, sums, products, fractions, powers, function calls and assignments. It also holds structural comparison (`identical`, `compareExpressions`), parameter collection (`getParameters`) and the rule-based `simplify`.
- **Parser** (`src/math/parser.js`): a `Parser` object with a character cursor and one token of lookahead. It reads arithmetic with `+ - * /`, unary minus, parentheses, calls `f(x, y)` and one `=`.
- **Evaluator** (`src/math/evaluate.js`): evaluates a tree in a chain of contexts. Each context has a symbol map and a separate function map. Functions are either builtin or custom; a custom function is defined by an assignment `f(x) = body`.
- **Symbol store** (`src/math/symbolStore.js`): a list of scope objects plus a visibility position. `setSymbol` writes into a scope in place.
- **Helpers** (`src/listUtil.js`, `src/util.js`): `zip`, the Cartesian `product`, `range` and `assert`.

Files:

| file | contents |
|---|---|
| `wrappers.dfy` | `Option` and `Result` |
| `list_util.dfy` | `zip` and `product` |
| `util.dfy` | `range` and `assert` |
| `bindings.dfy` | The "fill an object from `[name, value]` pairs" loop. The store and the evaluator both use it. |
| `expression.dfy` | The tree, `identical`, `compareExpressions` and `getParameters` |
| `simplifier.dfy` | `simplify` and its helpers, plus its loops as methods proved equal to the functions |
| `simplifier_examples.dfy` | The engine's own simplification examples, proved |
| `simplifier_terms.dfy` | What `combineElements` and the expansion of sums compute, over whole lists |
| `simplifier_fractions.dfy` | Cancellation by exponent difference, and the value kept when fractions are pulled together |
| `simplifier_tests.dfy` | The simplification equalities of src/math/expression.test.js, proved |
| `evaluate.dfy` | Contexts and `evaluate` |
| `symbol_store.dfy` | Module `Symbols`: scopes as objects, and `SymbolStore` as a class |
| `parser_spec.dfy` | The parser as functions over an explicit parser state |
| `parser.dfy` | The `Parser` class. Its methods update the fields in place and are proved equal to the functions. |
| `parser_rules.dfy` | One lemma per grammar rule |
| `parser_examples.dfy` | Whole inputs parsed end to end |
| `parser_printing.dfy` | A printer written from the grammar, and its output parsed back |

Where the design description and the code disagree, the model follows the code:

- **Operator nesting.** The four binary operators nest to the RIGHT. `a - b - c` parses as `a - (b - c)`, although the operators are described as left-associative. The test at `src/math/parser.test.js:37-42` expects left nesting.
- **No `^` operator.** `^` is described as a power operator, but the tokenizer has no `^` token, so `2^3` is rejected with "Unexpected char".
- **Fraction checks.** `simplifyFraction` checks a zero numerator first, then a denominator of one, then a zero denominator, so `0/0` simplifies to `0`.
- **Store updates.** They are described as pure, but `setSymbol` writes into the shared scope object in place.
- **The comma token.** It reads the undefined `TokenTypes.COMMA`. Its type is therefore `undefined`, which `testToken(TokenTypes.COMMA)` happens to match.
- **Summation, factorial and printing.** None of these exist in these files.

One exception goes the other way. The symbol-store lookup (`findScopeWithSymbol`, `hasSymbol`, `getSymbol`) follows the intended innermost-first search, although as written it throws, because the `reversed` it imports does not exist. The fourth row under "## Findings" records the code as written.

Numbers are modelled as mathematical reals, not IEEE doubles:

- `parseInt` and `parseFloat` are exact.
- `Math.sin`, `Math.pow` and the rest are parameters of an uninterpreted `Library`.
- A JavaScript division by zero (`Infinity`/`NaN`) is reported as the error `NotFinite`.

`simplify` and `evaluate` take a `fuel` argument that bounds recursion depth. Running out is the error `OutOfFuel`, which the source does not have.

## Model

| member | source | states |
|---|---|---|
| Bindings.BindingsMap | src/math/symbolStore.js:93-100 | The keys of the filled object are exactly the names of the pairs. |
| Bindings.LastBindingWins | src/math/symbolStore.js:95-97 | A name maps to the value of the last pair carrying it: later pairs overwrite earlier ones. |
| Bindings.BindingsMapValues | src/math/evaluate.js:65-68 | Every entry of the filled object comes from one of the pairs. |
| Bindings.FillMap | src/math/evaluate.js:65-73 | The for loop leaves exactly the dictionary `BindingsMap` describes. |
| ListUtil.Zip | src/listUtil.js:1-3 | `zip(a, b)` has one pair per element of `a`. The second component is `b[i]` where `b` has one and `undefined` (None) past its end. |
| ListUtil.ZipUnzip | src/listUtil.js:1-3 | Zipping with a list at least as long loses nothing: the first components give `a` back, and every second component is present. |
| ListUtil.PairsAt | src/listUtil.js:13-23 | The product has \|a\|·\|b\| pairs in a-major order: entry i·\|b\|+j is (a[i], b[j]). |
| ListUtil.PairsSnoc | src/listUtil.js:16-20 | One more element of `a` appends its row of pairs at the end. |
| ListUtil.Product | src/listUtil.js:13-23 | The nested for-of loops build exactly the Cartesian product. |
| Util.Range | src/util.js:5-12 | `range(start, end)` is start, start+1, …, end-1, and empty when start ≥ end. |
| Util.Assert | src/util.js:54-58 | `assert` throws AssertError exactly when its condition is false. |
| Expression.RemoveAt | src/math/expression.js:246-253 | Removing one element keeps the multiset of the rest. This is the step of list matching. |
| Expression.IdenticalSameKind | src/math/expression.js:241-244 | Identical trees have the same expression type. |
| Expression.IdenticalLeaves | src/math/expression.js:256-260 | Identifiers are identical iff their names are equal; numbers iff their values are equal. |
| Expression.IdenticalInOrder | src/math/expression.js:265-275 | Fractions, powers and assignments are identical iff both parts are identical in order, so a/b is not b/a. |
| Expression.ListsAreEqualLength | src/math/expression.js:246-249 | Lists that compare equal have the same length. |
| Expression.IdenticalReflexive | src/math/expression.js:241-279 | Every tree is identical to itself. |
| Expression.IdenticalSymmetric | src/math/expression.js:241-279 | `identical(a, b)` implies `identical(b, a)`. |
| Expression.IdenticalTransitive | src/math/expression.js:241-279 | Identical to identical is identical: with reflexivity, `identical` is an equivalence. |
| Expression.Identical | src/math/expression.js:241-279 | Structural equality, lists up to reordering. Stated by IdenticalSameKind, IdenticalLeaves, IdenticalInOrder, IdenticalReflexive, IdenticalSymmetric, IdenticalTransitive and PermutedListsAreEqual. |
| Expression.PermutedListsAreEqual | src/math/expression.js:246-253 | Summand, factor and argument lists that are permutations of each other compare equal. |
| Expression.SumOrderIgnored | src/math/expression.test.js:31-42 | `a + 10` is identical to `10 + a`, not to `b + 10 + a`, and the one-summand sum `a` is not identical to the one-factor product `a`. |
| Expression.FunctionCallsCompareNamesAndArgs | src/math/expression.test.js:48-58 | `sin(x)` differs from `cos(x)`, and `cos(x)` differs from `cos(y)`. |
| Expression.CompareFunctionCallsAsWritten | src/math/expression.js:211-212 | As written, two calls of the same function with different arguments each compare as not less than the other. |
| Expression.CompareFunctionCallsLikeSums | src/math/expression.js:206-221 | Corrected: calls of one function compare like the sums of their arguments, so `f(a) < f(b)`. |
| Expression.StringLessTotal | src/math/expression.js:181 | Distinct names are ordered by `<` one way or the other, never both. |
| Expression.CompareOrdersLeavesAndKinds | src/math/expression.js:160-183 | Trees of different kinds, distinct identifiers and distinct numbers are ordered one way or the other, never both. |
| Expression.Compare | src/math/expression.js:160-234 | `compareExpressions`, as written and corrected; stated by CompareOrdersLeavesAndKinds, the two function-call lemmas and CompareTestCases. |
| Expression.CompareTestCases | src/math/expression.test.js:10-58 | The comparator's verdicts on the test file's pairs. |
| Expression.GetParametersOfEmptyCall | src/math/expression.js:146-147 | As written, `getParameters(f())` throws, even inside a sum; the corrected version returns []. |
| Expression.GetParametersAgrees | src/math/expression.js:130-156 | Wherever the code as written returns, it returns the corrected version's list. |
| Expression.ConcatParametersAgrees | src/math/expression.js:136-147 | The same agreement for the concatenation over a list. |
| Expression.GetParametersMentions | src/math/expression.js:130-156 | A name is among the parameters iff it occurs as an identifier somewhere in the tree. Function names are not parameters. |
| Expression.ConcatParametersMentions | src/math/expression.js:136-147 | A name is among a list's parameters iff some element mentions it. |
| Expression.GetParametersExample | src/math/expression.test.js:103-112 | `a + g * g - 4 * h(x + d)` has parameters a, g, g, x, d, in this order. |
| Expression.GetParameters | src/math/expression.js:130-156 | The identifier names in the tree, left to right; stated by GetParametersMentions and GetParametersAgrees. |
| Simplifier.AnyIdenticalToIsMembership | src/math/expression.js:433 | Finding a factor identical to a number is membership of that number. |
| Simplifier.FilterKind | src/math/expression.js:329-330 | `filter(isNumber)` and its negation keep exactly the elements of the wanted type. |
| Simplifier.WithoutIdenticalTo | src/math/expression.js:437 | Filtering out a number keeps every other element and no copy of it. |
| Simplifier.FindIndex | src/math/expression.js:341 | `findIndex` returns the first matching index, or none if nothing matches. |
| Simplifier.IdenticalToNumber | src/math/expression.js:361 | Being identical to a number is being that number. |
| Simplifier.FlattenHasNoParent | src/math/expression.js:283-291 | `flattenTree` leaves no node of the flattened kind. |
| Simplifier.FlattenKeepsParameters | src/math/expression.js:283-291 | Flattening keeps the parameters and their order. |
| Simplifier.CoefficientTerms | src/math/expression.js:339-353 | Entry i is summand i's coefficient and remaining factors. The TypeError (an undefined stripped factor) is thrown iff some summand has no factor left. |
| Simplifier.ExponentTerms | src/math/expression.js:423-425 | Every factor becomes (exponent, base), with exponent 1 for a non-power. |
| Simplifier.ProductValuesZero | src/math/expression.js:417 | A product of numbers including 0 is 0. |
| Simplifier.MapSimplify | src/math/expression.js:327 | `map(simplify)` keeps the length. |
| Simplifier.LikeTerms | src/math/expression.js:309 | A term is kept iff its expression is identical to the head's; kept terms come from the list. |
| Simplifier.UnlikeTerms | src/math/expression.js:312 | A term is kept iff the head's expression is not identical to it; kept terms come from the list. |
| SimplifierTerms.LikeUnlikePartition | src/math/expression.js:309-312 | Every term lands in exactly one of the two filters: their multisets add up to the list. |
| SimplifierTerms.HeadsDistinct | src/math/expression.js:302-319 | The successive heads of `combineElements` are pairwise not identical. |
| SimplifierTerms.HeadsCover | src/math/expression.js:302-319 | Every term is identical to one of the heads. |
| SimplifierTerms.CombineElementsByGroup | src/math/expression.js:302-320 | The result has one element per group of identical expressions, in order of first occurrence. Each is the combination of the head's expression with the whole group's coefficients, folded from the head's own. |
| Simplifier.CollapseNestedAsWrittenLosesSide | src/math/expression.js:479-492 | As written, a/(b/c) collapses to c over b and (a/b)/c to a over b. |
| Simplifier.CollapseNestedAsWrittenChangesValue | src/math/expression.js:479-492 | As written, with every part worth 2, a/(b/c) (worth 2) collapses to a quotient worth 1. |
| Simplifier.CollapseNestedAgreesOnTwoFractions | src/math/expression.js:479-487 | When both sides are fractions, the corrected step does what the code does. |
| Simplifier.CollapseNestedKeepsValue | src/math/expression.js:476-492 | Corrected: for any values of the parts, the collapsed numerator list over the denominator list has the value of the original quotient. |
| Simplifier.ExpandSumsLoop | src/math/expression.js:402-411 | The expansion loop computes the function `ExpandSums`. |
| SimplifierTerms.MapSimplifyPairsAt | src/math/expression.js:405-407 | Entry i is the simplified product of pair i, and the map fails iff some pair's product fails. |
| SimplifierTerms.ExpandTwoSums | src/math/expression.js:402-411 | When two sums are multiplied out, for every i < \|a\| and j < \|b\|, summand i·\|b\|+j is the simplified product of a[i] and b[j]. |
| SimplifierTerms.ExpandTwoSumsCount | src/math/expression.js:402-411 | Multiplying out two sums gives \|a\|·\|b\| summands. |
| Simplifier.ReduceNonNumericalFractionLoop | src/math/expression.js:446-470 | The reduction loop, splicing the denominator list, computes `ReduceNonNumericalFraction`. |
| SimplifierFractions.FirstMatchFound | src/math/expression.js:452 | The search finds the first denominator factor with the same base. |
| SimplifierFractions.ReduceFactorWithoutMatch | src/math/expression.js:464-466 | A factor whose base matches no denominator factor moves to the numerator unchanged. |
| SimplifierFractions.ReduceFactorByExponents | src/math/expression.js:451-463 | Against the first same-base denominator factor, with numeric exponents m and n: that factor is removed, and b^(m-n) is appended to the numerator when m > n, b^(n-m) to the denominator when m < n, nothing when m = n. |
| SimplifierFractions.PowerOfAtom | src/math/expression.js:539-564 | An atom to a number k is 1 for k = 0, the atom for k = 1, and the power otherwise. |
| SimplifierFractions.ReduceWithoutNumbers | src/math/expression.js:494-537 | Without Number factors, reducing a fraction is cancelling the factor lists, rebuilding both sides and the final checks. |
| SimplifierFractions.SquareOverAtomReduces | src/math/expression.js:446-470 | (x·x)/x reduces to x. |
| SimplifierFractions.CubeOverAtomReduces | src/math/expression.js:459-462 | x^3/x reduces to x^2: the difference goes to the numerator. |
| SimplifierFractions.AtomOverCubeReduces | src/math/expression.js:459-460 | x/x^3 reduces to 1/x^2: the difference goes to the denominator. |
| Simplifier.SimplifyLeavesAtomsUnchanged | src/math/expression.js:566-579 | Identifiers, numbers, calls and assignments simplify to themselves. |
| Simplifier.MapSimplifyAt | src/math/expression.js:327 | A successful `map(simplify)` simplifies each element in place. |
| Simplifier.SumOfNumbers | src/math/expression.js:329-336 | A sum of numbers simplifies to the number that is their sum. |
| Simplifier.EmptySumIsZero | src/math/expression.js:329-336 | An empty sum simplifies to 0. |
| Simplifier.ProductOfNumbers | src/math/expression.js:415-421 | A product of numbers simplifies to the number that is their product. |
| Simplifier.CombineFactorsOfNumbers | src/math/expression.js:415-421 | Combining only numbers gives their product. |
| Simplifier.ZeroSummandChangesNothing | src/math/expression.js:359-361 | Adding a zero summand does not change the result of simplifying a sum. |
| Simplifier.CombineSummandsZero | src/math/expression.js:329-369 | A zero summand does not change how the summands combine. |
| Simplifier.CombineFactorsUnit | src/math/expression.js:415-443 | A factor of one, anywhere, does not change how the factors combine. |
| Simplifier.UnitFactorChangesNothing | src/math/expression.js:437-443 | Multiplying by 1 does not change the simplified product (no fraction factor). |
| Simplifier.MultiplyFactorsUnit | src/math/expression.js:398-443 | A unit factor does not change multiplying out fraction-free factors. |
| Simplifier.CombineFactorsZero | src/math/expression.js:433-435 | Combining factors that include 0 gives 0. |
| Simplifier.ShortProducts | src/math/expression.js:373-379 | The empty product is 1, and a one-factor product is its factor, unsimplified. |
| Simplifier.ZeroFactorGivesZero | src/math/expression.js:433-435 | A product with a zero factor simplifies to 0 (no fraction factor). |
| Simplifier.MultiplyFactorsZero | src/math/expression.js:398-435 | Multiplying out fraction-free factors that include 0 gives 0. |
| SimplifierFractions.PulledTogetherKeepsValue | src/math/expression.js:387-396 | Under any valuation with nonzero denominators, the pulled-together quotient (fraction numerators and other factors over the fraction denominators) has the value of the product of the factors. |
| Simplifier.PowerRules | src/math/expression.js:539-564 | `0^0` throws and nothing else does. x^0 is 1, x^1 is x, 0^x is 0 and 1^x is 1, in this order; otherwise the power is kept. |
| Simplifier.Simplify | src/math/expression.js:566-579 | Dispatch on the kind. Stated by SimplifyLeavesAtomsUnchanged and the lemmas on each kind below and in SimplifierTests. |
| Simplifier.SimplifySum | src/math/expression.js:322-370 | Stated by EmptySumIsZero, SumOfNumbers, ZeroSummandChangesNothing, CoefficientTerms and CombineElementsByGroup. |
| Simplifier.SimplifyProduct | src/math/expression.js:372-444 | Stated by ShortProducts, ProductOfNumbers, UnitFactorChangesNothing, ZeroFactorGivesZero, PulledTogetherKeepsValue, ExpandTwoSums and ExpandTwoSumsCount. |
| Simplifier.SimplifyFraction | src/math/expression.js:472-537 | With the nested-fraction step corrected; stated by CollapseNestedKeepsValue, FractionOfSimplified, ZeroNumeratorGivesZero and DivisionByZeroRaised. |
| Simplifier.ReduceFraction | src/math/expression.js:494-537 | Stated by ReduceWithoutNumbers, ReduceFactorByExponents, ZeroNumeratorReduces, AtomOverOneReduces and AtomOverZeroReduces. |
| Simplifier.SimplifyPower | src/math/expression.js:539-564 | Stated by PowerRules. |
| SimplifierExamples.AddingLikeTerms | src/math/expression.test.js:83 | `a + a` and `2 * a` both simplify to `a * 2`. |
| SimplifierExamples.SubtractingSelf | src/math/expression.test.js:87 | `a - a` simplifies to 0. |
| SimplifierExamples.SubtractionOfNumbers | src/math/expression.js:39-44 | The difference of two numbers simplifies to their difference. |
| SimplifierExamples.ZeroDifferenceOverAtom | src/math/expression.test.js:92 | `(a - a) / b` simplifies to 0. |
| SimplifierExamples.QuotientOfItself | src/math/expression.test.js:90 | `a / a` simplifies to 1 for any atom. |
| SimplifierExamples.DivisionByZeroRaised | src/math/expression.js:532-534 | `x / 0` throws "Division by 0 is undefined". |
| SimplifierExamples.ZeroNumeratorReduces | src/math/expression.js:524-526 | A zero numerator gives 0 before the denominator is looked at. |
| SimplifierExamples.ZeroNumeratorGivesZero | src/math/expression.js:524-526 | A fraction whose numerator simplifies to 0 simplifies to 0, even over 0. |
| SimplifierExamples.AtomOverOneReduces | src/math/expression.js:528-530 | A denominator of 1 is dropped. |
| SimplifierExamples.AtomOverItselfReduces | src/math/expression.js:494-522 | Equal bases cancel, leaving 1. |
| SimplifierExamples.AtomOverZeroReduces | src/math/expression.js:532-534 | Reducing over a zero denominator throws. |
| SimplifierExamples.FractionOfSimplified | src/math/expression.js:472-494 | Without nested fractions, a fraction reduces its simplified parts. |
| SimplifierExamples.PowerOfOne | src/math/expression.js:551-553 | x^1 simplifies to x. |
| SimplifierExamples.ScaledAtom | src/math/expression.js:415-443 | `c * x` is 0 if c is 0, x if c is 1, and otherwise `x * c`. |
| SimplifierExamples.SumOfTwo | src/math/expression.js:329-336 | `u + v` of two numbers is their sum. |
| SimplifierExamples.CombineTwoLikeTerms | src/math/expression.js:302-320 | Two like terms combine into one element from the sum of their coefficients. |
| SimplifierExamples.DoubledAtom | src/math/expression.js:355-369 | `x + x` combines to `x * 2`. |
| SimplifierExamples.CancelledAtom | src/math/expression.js:355-369 | `x + x * -1` combines to 0. |
| SimplifierExamples.ShortProduct | src/math/expression.js:373-379 | A product of at most one factor short-circuits. |
| SimplifierExamples.NegatedNumber | src/math/expression.js:415-421 | `-1 * v` is the number -v. |
| SimplifierTests.AtomPlusConstant | src/math/expression.js:329-369 | An atom plus the number c is the atom when c is 0, otherwise the sum atom + c. |
| SimplifierTests.ZeroPlusAtom | src/math/expression.test.js:84 | `0 + a` simplifies to `a`. |
| SimplifierTests.ZeroAndOneTimesAtom | src/math/expression.test.js:85-86 | `0 * a` simplifies to 0 and `1 * a` to `a`. |
| SimplifierTests.NegatedScaledAtom | src/math/expression.js:415-443 | `-(c * x)` simplifies to 0 for c = 0, to x for c = -1, and to `x * (-c)` otherwise. |
| SimplifierTests.SubtractingDouble | src/math/expression.test.js:88 | `a - 2 * a` and `-a` both simplify to `a * -1`. |
| SimplifierTests.QuotientOfQuotientsSimplified | src/math/expression.test.js:89 | For distinct names, `(a / b) / (c / d)` and `(a * d) / (b * c)` both simplify to `(a * d) / (b * c)`. |
| SimplifierTests.ProductWithQuotientOfItself | src/math/expression.test.js:91 | `a * a / a` (parsed as `a * (a / a)`) simplifies to `a`. |
| SimplifierTests.OverQuotientOfItself | src/math/expression.test.js:93 | `b / (a / a)` simplifies to `b`. |
| SimplifierTests.AtomSquared | src/math/expression.js:423-429 | `x * x` simplifies to `x ^ 2` for an atom x. |
| SimplifierTests.AtomCubed | src/math/expression.js:423-429 | `x * x * x` simplifies to `x ^ 3` for an atom x. |
| SimplifierTests.OneOverReduces | src/math/expression.js:494-536 | 1 over a non-number, non-product d stays `1 / d`. |
| SimplifierTests.AtomOverCubeSimplified | src/math/expression.test.js:94 | `a / (a * a * a)` and `1 / (a * a)` both simplify to `1 / a ^ 2`. |
| SimplifierTests.AtomTimesOneOverSquare | src/math/expression.test.js:95 | `a * (1 / (a * a))` and `1 / a` both simplify to `1 / a`. |
| SimplifierTests.SquareTimesOneOverCube | src/math/expression.test.js:96 | `a * a * (1 / (a * a * a))` simplifies to `1 / a`. |
| Evaluate.CustomFunc | src/math/evaluate.js:22-38 | A definition `f(x, …) = body` binds f to a custom function: the body, the name, and the argument names in order. |
| Evaluate.ContextOf | src/math/evaluate.js:64-80 | A context's symbol and function maps have exactly the given names. A missing parent means the default context. |
| Evaluate.MakeContext | src/math/evaluate.js:64-80 | The two for loops build exactly that context. |
| Evaluate.DefaultContext | src/math/evaluate.js:40-87 | The default context has no parent, the constants pi and e, and exactly the builtins sin, cos, tan, asin, acos and atan, each taking one argument and applying the library function of its name. |
| Evaluate.GetSymbolIsInnermost | src/math/evaluate.js:90-100 | A symbol is found iff some context on the parent chain binds it, and the nearest one wins. |
| Evaluate.GetSymbol | src/math/evaluate.js:90-100 | Stated by GetSymbolIsInnermost and NamespacesAreSeparate. |
| Evaluate.GetFunction | src/math/evaluate.js:117-126 | Stated by NamespacesAreSeparate and CallErrors. |
| Evaluate.NamespacesAreSeparate | src/math/evaluate.js:89-126 | Symbol lookup never reads function maps, and function lookup never reads symbol maps. |
| Evaluate.EvalIdentifier | src/math/evaluate.js:89-114 | An identifier evaluates to its constant's value, or fails with "'x' is not defined" exactly when no context on the chain has it as an own key. |
| Evaluate.CallContext | src/math/evaluate.js:148-150 | A call's context has the CALLING context's parent, no functions, and exactly the parameter names, each bound to the constant value of its argument; for a repeated name the last one wins. |
| Evaluate.EvalArgs | src/math/evaluate.js:130 | Evaluated arguments are one value per argument. |
| Evaluate.FoldSumIsSum | src/math/evaluate.js:163 | The sum reduction adds the values of all summands to the start value, or fails with the first error. |
| Evaluate.FoldProductIsProduct | src/math/evaluate.js:165 | The product reduction multiplies them the same way. |
| Evaluate.SumAndProductValues | src/math/evaluate.js:162-165 | A sum's value is the sum of its summands' values, and a product's the product. |
| Evaluate.LeavesAndAssignments | src/math/evaluate.js:160-173 | A number is its value. An assignment throws "Unsupported expression type". |
| Evaluate.Evaluate | src/math/evaluate.js:156-175 | Stated by LeavesAndAssignments, EvalIdentifier, SumAndProductValues, SubtractionEvaluates and the call lemmas. |
| Evaluate.EvalFunction | src/math/evaluate.js:116-154 | Stated by ArgumentsComeFirst, CallErrors, CallContext and CustomBodyIgnoresCallerBindings. |
| Evaluate.SubtractionEvaluates | src/math/expression.js:39-44 | `a - b`, built as `a + (-1)·b`, evaluates to the difference. |
| Evaluate.ArgumentsComeFirst | src/math/evaluate.js:128-134 | A failing argument fails the call before the name is checked. |
| Evaluate.CallErrors | src/math/evaluate.js:132-146 | An unknown name is "not defined". A builtin gives "Wrong number of arguments" exactly when the count differs from its `argCount`. A custom function gives it whenever the count differs from its parameter count. |
| Evaluate.CustomBodyIgnoresCallerBindings | src/math/evaluate.js:148-150 | A custom body runs under the parent of the calling context: whenever the arguments have the same values, the calling context's own symbols and its other functions do not change the result. |
| Evaluate.NumericCallIgnoresCallerBindings | src/math/evaluate.js:128-150 | In particular a call with numeric arguments has the same value whatever else the calling context binds. |
| Evaluate.SquareMinusDouble | src/math/evaluate.test.js:40-43 | `x * x - 2 * x` with x = 5 evaluates to 15. |
| Evaluate.ScaledSum | src/math/evaluate.test.js:45-54 | `a + x * a` with x = 5 and a = 2 evaluates to 12. |
| Evaluate.DefinitionsRead | src/math/evaluate.test.js:56-81 | `f(x) = x * x` and `g(x) = x * f(x)` define the expected functions. |
| Evaluate.CustomFunctionExamples | src/math/evaluate.test.js:56-81 | `f(10)` is 100, and `g(5)` in a context nested in f's is 125. |
| Evaluate.SquareCall | src/math/evaluate.js:143-150 | Calling f(x) = x·x on v gives v·v. |
| Symbols.FuncFromAssignment | src/math/symbolStore.js:39-54 | A definition yields the name and a custom function with the body and the argument names in order. |
| Symbols.VariableFromAssignment | src/math/symbolStore.js:79-90 | An assignment yields its left name and a variable symbol holding its right side. |
| Symbols.InnermostIsHighestBinding | src/math/symbolStore.js:132-141 | The search finds nothing iff no visible scope binds the name. Otherwise it finds the highest visible binding scope. |
| Symbols.Innermost | src/math/symbolStore.js:132-141 | The intended search; stated by InnermostIsHighestBinding and the lemmas after it. |
| Symbols.InnermostIgnoresHigherScopes | src/math/symbolStore.js:133 | Scopes beyond the position are never consulted. |
| Symbols.InnermostAfterNewScope | src/math/symbolStore.js:117-126 | After `addScope`, the new scope shadows the older ones. |
| Symbols.InnermostAfterRebind | src/math/symbolStore.js:152-157 | Rebinding an existing name does not change where any name is found. |
| Symbols.Reversed | src/util.js:26-33 | What `reversed` is for: the list back to front. |
| Symbols.InnermostAsIntendedAgrees | src/math/symbolStore.js:132-141 | Corrected: with a working `reversed`, the search returns exactly the innermost binding scope. |
| Symbols.LookupAsWrittenThrows | src/math/symbolStore.js:1 | As written, looking up a bound `pi` throws a TypeError, because `reversed` is not exported by src/util.js. |
| Symbols.SymbolStore.Create | src/math/symbolStore.js:106-115 | A missing or zero position means all scopes. Any other position larger than the scope count fails the assertion. |
| Symbols.SymbolStore.FromSymbolList | src/math/symbolStore.js:93-100 | One fresh scope holding the symbols, later duplicates winning, all visible. |
| Symbols.SymbolStore.StoreWithPosition | src/math/symbolStore.js:102-104 | The same scope objects with another position. It fails iff the position exceeds them. |
| Symbols.SymbolStore.AddScope | src/math/symbolStore.js:117-126 | All existing scopes, whatever the position, plus one fresh scope; all are visible. |
| Symbols.SymbolStore.Branch | src/math/symbolStore.js:128-130 | The first `position` scopes (all if fewer), shared not copied, all visible. |
| Symbols.SymbolStore.FindScopeWithSymbol | src/math/symbolStore.js:132-141 | Returns the innermost visible scope binding the name and its index, or nothing iff none binds it. |
| Symbols.SymbolStore.HasSymbol | src/math/symbolStore.js:143-145 | True iff some visible scope binds the name. |
| Symbols.SymbolStore.GetSymbol | src/math/symbolStore.js:147-150 | The symbol and scope index of the innermost binding. An unbound name is a TypeError. |
| Symbols.SymbolStore.SetSymbol | src/math/symbolStore.js:152-166 | It writes into the existing scope object in place. A name not yet in that scope fails the assertion; a missing scope is a TypeError. The new store shares all scopes. |
| Symbols.SetSymbolKeepsLookups | src/math/symbolStore.js:152-166 | After `setSymbol`, every name is found in the same scope as before. |
| ParserSpec.OneCharacterToken | src/math/parser.js:104-113 | Exactly the characters `( ) , + - * / =` are one-character tokens, none of number, identifier or EOF type. |
| ParserSpec.Advance | src/math/parser.js:32-39 | The cursor moves by one, and `exhausted` is set exactly at the end of the input. |
| ParserSpec.ReadWhile | src/math/parser.js:41-49 | It returns the longest run from the cursor satisfying the condition and stops after it. |
| ParserSpec.ParseNumber | src/math/parser.js:51-72 | The text read is the input between the old and new cursor, and at least one digit is consumed. |
| ParserSpec.SkipSpaces | src/math/parser.js:75-78 | It skips exactly the run of spaces. |
| ParserSpec.NextToken | src/math/parser.js:74-126 | At the end it returns EOF and sets `finished`. Otherwise every token consumes input. An error is an unexpected character that starts no token. |
| ParserSpec.TestToken | src/math/parser.js:128-137 | On a match it consumes the lookahead, which becomes the current token. Otherwise the state is unchanged. |
| ParserSpec.ExpectToken | src/math/parser.js:139-143 | A lookahead of another type throws "Expected …" and leaves the state as it was. |
| ParserSpec.ParseAtom | src/math/parser.js:145-157 | A successful atom consumes input. |
| ParserSpec.ParseFunction | src/math/parser.js:159-180 | A successful call or atom consumes input. |
| ParserSpec.ParseArguments | src/math/parser.js:167-171 | The comma loop only appends to the argument list. |
| ParserSpec.ParseUnary | src/math/parser.js:182-188 | A successful unary operand consumes input. |
| ParserSpec.ParseBinary | src/math/parser.js:190-214 | A successful binary level consumes input. |
| ParserSpec.ParseExpression | src/math/parser.js:217-219 | A successful expression consumes input. |
| ParserSpec.ParseAssignment | src/math/parser.js:221-231 | A successful statement consumes input. |
| ParserSpec.Parse | src/math/parser.js:233-249 | Empty input throws "Expected input". Success means the whole input was read. |
| Parsing.Parser.constructor | src/math/parser.js:252 | A new parser has empty input and an undefined current token. |
| Parsing.Parser.Advance | src/math/parser.js:32-39 | The method updates the fields as `ParserSpec.Advance` says. |
| Parsing.Parser.ReadWhile | src/math/parser.js:41-49 | The while loop returns the text and leaves the state `ParserSpec.ReadWhile` gives. |
| Parsing.Parser.ParseNumber | src/math/parser.js:51-72 | As `ParserSpec.ParseNumber`. |
| Parsing.Parser.NextToken | src/math/parser.js:74-126 | As `ParserSpec.NextToken`, error and final state included. |
| Parsing.Parser.TestToken | src/math/parser.js:128-137 | As `ParserSpec.TestToken`. |
| Parsing.Parser.ExpectToken | src/math/parser.js:139-143 | As `ParserSpec.ExpectToken`. |
| Parsing.Parser.ParseAtom | src/math/parser.js:145-157 | As `ParserSpec.ParseAtom`. |
| Parsing.Parser.ParseFunction | src/math/parser.js:159-180 | As `ParserSpec.ParseFunction`, its argument loop included. |
| Parsing.Parser.ParseUnary | src/math/parser.js:182-188 | As `ParserSpec.ParseUnary`. |
| Parsing.Parser.ParseBinary | src/math/parser.js:190-214 | As `ParserSpec.ParseBinary`. |
| Parsing.Parser.ParseExpression | src/math/parser.js:217-219 | As `ParserSpec.ParseExpression`. |
| Parsing.Parser.ParseAssignment | src/math/parser.js:221-231 | As `ParserSpec.ParseAssignment`. |
| Parsing.Parser.Parse | src/math/parser.js:233-255 | As `ParserSpec.Parse`, from whatever state the parser was left in. |
| ParserRules.ReadWhileUpTo | src/math/parser.js:41-49 | Reading stops exactly at the first character failing the condition. |
| ParserRules.SkipSpacesUpTo | src/math/parser.js:75-78 | Skipping stops exactly at the first non-space. |
| ParserRules.EndOfInput | src/math/parser.js:80-85 | Only spaces left: EOF, with the input used up and `finished` set. |
| ParserRules.IdentifierTokenRule | src/math/parser.js:97-102 | A run of letters is one identifier token. |
| ParserRules.IntegerTokenRule | src/math/parser.js:87-95 | A run of digits not followed by `.` is a number token with its decimal value. |
| ParserRules.DecimalNumber | src/math/parser.js:63-71 | Digits, a dot and digits read as that decimal value. |
| ParserRules.DecimalTokenRule | src/math/parser.js:87-95 | A decimal literal is one number token with that value. |
| ParserRules.CharTokenRule | src/math/parser.js:115-122 | A table character is one token of its type. |
| ParserRules.UnexpectedCharRule | src/math/parser.js:125 | Any other non-space character throws "Unexpected char". |
| ParserRules.TestTokenMatches | src/math/parser.js:129-133 | A match reads the next token into the lookahead. |
| ParserRules.IdentifierOperand | src/math/parser.js:146-147 | An identifier not followed by `(` is an identifier operand. |
| ParserRules.NumberOperand | src/math/parser.js:148-149 | A number token is a number operand. |
| ParserRules.ParenthesisedOperand | src/math/parser.js:150-154 | `( e )` is the operand e. |
| ParserRules.EmptyCallOperand | src/math/parser.js:162-165 | `f()` is a call with no arguments. |
| ParserRules.ArgumentsEnd | src/math/parser.js:169 | Without a comma the argument loop stops. |
| ParserRules.ArgumentsContinue | src/math/parser.js:169-171 | A comma and an expression append one argument. |
| ParserRules.CallOperand | src/math/parser.js:166-175 | `f(e, …)` is a call with the parsed arguments. |
| ParserRules.UnclosedCallRejected | src/math/parser.js:173 | A call not closed after its argument throws "Expected ')'". |
| ParserRules.NegatedOperand | src/math/parser.js:183-185 | `-u` is `(-1) · u`. |
| ParserRules.MissingOperandRejected | src/math/parser.js:156 | No operand throws "Unexpected token" with the last consumed token, or a TypeError when there is none. |
| ParserRules.FirstOperandRejected | src/math/parser.js:191 | An error in the first operand propagates to every level. |
| ParserRules.ProductLevelEnds | src/math/parser.js:203-213 | Without `*` or `/`, the product level is its operand. |
| ParserRules.ProductNestsRight | src/math/parser.js:204-205 | `u * rest` is a product of u and the whole parsed rest. |
| ParserRules.FractionNestsRight | src/math/parser.js:208-209 | `u / rest` is a fraction of u over the whole parsed rest. |
| ParserRules.SumLevelEnds | src/math/parser.js:193-213 | Without `+` or `-`, the sum level is its product. |
| ParserRules.SumNestsRight | src/math/parser.js:194-195 | `p + rest` is a sum of p and the whole parsed rest. |
| ParserRules.SubtractionNestsRight | src/math/parser.js:198-199 | `p - rest` is the subtraction of the whole parsed rest. |
| ParserRules.ExpressionStatement | src/math/parser.js:221-230 | Without `=`, the statement is the expression. |
| ParserRules.AssignmentStatement | src/math/parser.js:224-227 | `l = r` is an assignment. |
| ParserRules.WholeInputAccepted | src/math/parser.js:238-248 | A statement followed by EOF is the parse result. |
| ParserRules.OperandIsWholeInput | src/math/parser.js:238-248 | An operand followed by EOF is the parse result. |
| ParserRules.TrailingInputRejected | src/math/parser.js:246 | Tokens after the statement throw "Expected EOF". |
| ParserRules.StatementRejected | src/math/parser.js:245 | A failing statement fails the parse with the same error. |
| ParserExamples.LoneNumber | src/math/parser.js:233-249 | Input that is a single number token parses to that number. |
| ParserExamples.IntegerLiteral | src/math/parser.test.js:16-20 | `1034` parses to 1034. |
| ParserExamples.DecimalLiteral | src/math/parser.test.js:22-26 | `1034.45` parses to 1034.45. |
| ParserExamples.SubtractionChainNestsRight | src/math/parser.js:190-214 | `a - b - c` parses to `a - (b - c)`. |
| ParserExamples.GroupedSumIsOneFactor | src/math/parser.test.js:58-67 | `a * (1 + b)` parses to the product of a and the sum. |
| ParserExamples.DanglingOperatorRejected | src/math/parser.js:156 | `a +` throws "Unexpected token '+'". |
| ParserExamples.ChainedAssignmentRejected | src/math/parser.js:221-246 | `a = b = c` throws "Expected EOF". |
| ParserExamples.CaretRejected | src/math/parser.js:125 | `2^3` throws "Unexpected char '^'". |
| ParserExamples.EmptyCall | src/math/parser.js:162-165 | `f()` parses to a call with no arguments. |
| ParserExamples.UnclosedCall | src/math/parser.js:173 | `f(1` throws "Expected ')'". |
| ParserExamples.CallWithTwoArguments | src/math/parser.js:166-175 | `f(x,y)` parses to a call with the arguments x and y, in order. |
| ParserExamples.DoubleNegation | src/math/parser.js:183-185 | `--a` parses to `(-1) · ((-1) · a)`. |
| ParserPrinting.DigitText | src/math/parser.js:87-95 | The printed digits of a whole number are all digits, and their decimal value, as the lexer reads it, is the number. |
| ParserPrinting.WholeNumberPrintsBack | src/math/parser.js:87-95 | Any whole number, printed, parses back to that number as the whole input. |
| ParserPrinting.NamePrintsBack | src/math/parser.js:97-102 | Any name made of letters, printed, parses back to that identifier as the whole input. |
| ParserPrinting.ChainPrintsBack | src/math/parser.js:190-214 | The printed form of `a - (b - c)` parses back to the same expression. |
| ParserPrinting.GroupedPrintsBack | src/math/parser.js:145-157 | The printed form of `a * (1 + b)` parses back to the same expression. |
| ParserPrinting.EmptyCallPrintsBack | src/math/parser.js:162-165 | `f()` is the printed form of the call with no arguments, and it parses back to that call. |
| ParserPrinting.TwoArgumentsPrintBack | src/math/parser.js:166-175 | The printed form of `f(x, y)` parses back to the same call. |
| ParserPrinting.NegationPrintsBack | src/math/parser.js:183-185 | The printed form of `-(-a)` parses back to the same expression. |

## Findings

| source | as written | input that shows it | evidently intended | confidence | as-written member | corrected member |
|---|---|---|---|---|---|---|
| src/math/expression.js:211 | The length check reads `b.length`, which is undefined, so calls with equally many arguments compare by `a.args.length < b.args.length`: false both ways. | `f(a)` vs `f(b)` | `b.args.length`: compare the arguments in order, as for sums | not executed | Expression.CompareFunctionCallsAsWritten | Expression.CompareFunctionCallsLikeSums |
| src/math/expression.js:136-147 | `reduce` without an initial value throws a TypeError on an empty summand, factor or argument list. | `getParameters(f())`, also inside `a + f()` | An empty list has no parameters | not executed | Expression.GetParametersOfEmptyCall | Expression.GetParametersMentions |
| src/math/expression.js:479-492 | When only one side is a fraction, the other side is dropped from both factor lists. | `a / (b / c)` collapses to `c / b` | Keep it: `(a·c) / b`, and `(a/b)/c` as `a / (b·c)` | not executed | Simplifier.CollapseNestedAsWrittenChangesValue | Simplifier.CollapseNestedKeepsValue |
| src/math/symbolStore.js:1 | `reversed` is imported from src/util.js, which does not export it, so `findScopeWithSymbol` calls `undefined`. | `hasSymbol('pi')` on a store binding pi | Search the visible scopes innermost first | not executed | Symbols.LookupAsWrittenThrows | Symbols.InnermostAsIntendedAgrees |

In each case the rest of the model uses the corrected definition.

## Left out

- The module-level `defaultParser` (src/math/parser.js:252-255) is modelled as the state passed to `Parse`. Its state carries over between calls, as the single shared parser's would.
- Error message texts are not modelled: errors are datatype constructors. Neither is the input excerpt `expectToken` appends (Math.max/slice around the cursor).
- `createErrorType` (src/util.js:37-50) builds JavaScript `Error` subclasses. Only the resulting error kinds are modelled.
- Floating point is not modelled: numbers are exact reals.
  - `parseInt`/`parseFloat` are exact decimal values.
  - `Math.*` and `Math.pow` are uninterpreted functions of a `Library` parameter.
  - JavaScript division by zero gives `Infinity`/`NaN`; here it is the error `NotFinite`.
- The `fuel` bound of `Simplify` and `Evaluate` adds an `OutOfFuel` result that the source does not have. The source would instead recurse until the stack overflows.
- `sortedExpressionList` (src/math/expression.js:236-239) is not modelled as a sort: `compareExpressions` is a boolean "less than" passed to `Array.prototype.sort`, which needs a three-way comparator. `identical` on lists is modelled by what the sort is for: the lists match element by element up to reordering.
- src/math/evalExpr.js is not part of this model.
- `range` and `reversed` of src/listUtil.js (lines 5-11, 25-32) push onto a function and onto the number 0, so they throw on any non-empty loop. Neither is exported, and neither is used by the core. `reversed` of src/util.js is likewise broken and unexported (see Findings).
- `zip` and `product` of src/util.js are the same code as those of src/listUtil.js and are modelled once.
- Simplifier.ZeroFactorGivesZero: stated only when no factor simplifies to a fraction. A fraction factor sends the product down the fraction path.
- Simplifier.UnitFactorChangesNothing: stated only when no factor simplifies to a fraction, for the same reason.
- Simplifier.CombineFactorsZero: states the result only when combining succeeds, not that it succeeds.
- The last simplification example, `(a * a * b * c * c * 4) / (a * b * c * 5)` at src/math/expression.test.js:97, is not proved. It runs through the same code as CombineElementsByGroup (three groups of like factors) and ReduceFactorByExponents (three cancellations), which are proved for all inputs. The concrete unfolding over six factors was not carried out. The other fourteen examples are proved in SimplifierExamples and SimplifierTests.
- Idempotence of `simplify` is not proved.
- Evaluate.EvalIdentifier: the JavaScript `in` also finds names inherited from `Object.prototype` (`toString`, `constructor`, …) in the `{}` maps built at src/math/evaluate.js:65 and :70. The model's maps hold only own keys. For such a name the source throws 'Unsupported symbol type' (:112) where the model reports "not defined". A call such as `toString(1)` throws 'Unsupported function type' (:152), a case the model's `Func` cannot represent.
- Evaluate.GetSymbol: looks up own keys only, for the same reason.
- Evaluate.GetFunction: looks up own keys only, for the same reason.
- Symbols.SymbolStore.FindScopeWithSymbol: own keys only. For an inherited name such as `constructor`, the source's `name in scope` (src/math/symbolStore.js:134) is true in every scope.
- Symbols.SymbolStore.HasSymbol: own keys only, so `hasSymbol('constructor')` is false here and true in the source.
- Symbols.SymbolStore.Create: the position is a `nat`. The source tests it for truthiness only, so a negative position passes its check, and a later `slice` counts it from the end. No caller in the core passes a negative position.
- Symbols.SymbolStore.Branch: the position is a `nat`, for the same reason.
- Symbols.SymbolStore.SetSymbol: the position is a `nat`, for the same reason.
- Symbols.SymbolStore.SetSymbol: own keys only, so its assertion at src/math/symbolStore.js:154 fails here for an inherited name it accepts in the source.
- Simplifier.CoefficientTerms: the model works on values, so it does not show the source's aliasing. `getFactors` returns a product's own `factors` array, and the `splice` at src/math/expression.js:348 removes the coefficient from it in place. A one-factor product is returned by `simplifyProduct` unsimplified (:377-379), so the splice can edit a node the caller still holds. With a shared node P = `product([a, 2])`, `sum([product([P]), product([P])])` simplifies to `a * 3` in the source, not `a * 4`, and leaves P as `product([a])`.
- Simplifier.ShortProducts: returns the single factor as a value; the sharing that makes the splice above visible is not modelled.
- The functions `Simplify`, `SimplifySum`, `SimplifyProduct`, `SimplifyFraction`, `ReduceFraction`, `SimplifyPower`, `Evaluate`, `EvalFunction`, `GetSymbol`, `GetFunction`, `Identical`, `Compare`, `GetParameters` and `Innermost` carry no contract of their own. What they compute is stated by the lemmas named in their rows.
