/** The expression model of src/math/expression.js: the node kinds, structural equality
    `identical`, the comparator `compareExpressions` and the parameter collector `getParameters`. */
module Expression {
  import opened Wrappers

  /** One case per `ExpressionTypes` tag that has a constructor. Numbers are exact reals. */
  datatype Expr =
    | Identifier(name: string)
    | Number(value: real)
    | Sum(summands: seq<Expr>)
    | Product(factors: seq<Expr>)
    | Fraction(numerator: Expr, denominator: Expr)
    | Power(base: Expr, exponent: Expr)
    | FunctionCall(name: string, args: seq<Expr>)
    | Assignment(left: Expr, right: Expr)

  /** The numeric `type` field; 3 (`SUB`) is reserved and never built. */
  function TypeTag(e: Expr): nat
  {
    match e
    case Identifier(_) => 0
    case Number(_) => 1
    case Sum(_) => 2
    case Product(_) => 4
    case Fraction(_, _) => 5
    case Power(_, _) => 6
    case FunctionCall(_, _) => 7
    case Assignment(_, _) => 8
  }

  /** `subtraction(left, right)` is sugar: left + (-1) * right. */
  function Subtraction(left: Expr, right: Expr): Expr
  {
    Sum([left, Product([Number(-1.0), right])])
  }

  /** The `name` field of a node: Identifiers and FunctionCalls have one; reading it from any
      other node gives `undefined`, which as an object key is the string "undefined". */
  function NameField(e: Expr): string
  {
    if e.Identifier? || e.FunctionCall? then e.name else "undefined"
  }

  /** An assignment whose left side is a call whose arguments are all identifiers. */
  predicate IsFunctionDefinition(e: Expr)
  {
    e.Assignment? && e.left.FunctionCall? &&
    forall i :: 0 <= i < |e.left.args| ==> e.left.args[i].Identifier?
  }

  // ---------------------------------------------------------------------------
  // Structural equality

  function RemoveAt<T>(s: seq<T>, j: nat): (r: seq<T>)
    requires j < |s|
    ensures |r| == |s| - 1
    ensures multiset(r) == multiset(s) - multiset{s[j]}
  {
    assert s == s[..j] + [s[j]] + s[j + 1..];
    s[..j] + s[j + 1..]
  }

  /** `identical(a, b)`: the same kind and, recursively, the same content; the children of a
      Sum, a Product and a FunctionCall are compared as multisets (the source sorts both lists
      and compares them pairwise), those of a Fraction, a Power and an Assignment in order. */
  function Identical(a: Expr, b: Expr): bool
  {
    match (a, b)
    case (Identifier(x), Identifier(y)) => x == y
    case (Number(x), Number(y)) => x == y
    case (Sum(s), Sum(t)) => ExpressionListsAreEqual(s, t)
    case (Product(s), Product(t)) => ExpressionListsAreEqual(s, t)
    case (Fraction(n1, d1), Fraction(n2, d2)) => Identical(n1, n2) && Identical(d1, d2)
    case (Power(b1, e1), Power(b2, e2)) => Identical(b1, b2) && Identical(e1, e2)
    case (FunctionCall(f, s), FunctionCall(g, t)) => f == g && ExpressionListsAreEqual(s, t)
    case (Assignment(l1, r1), Assignment(l2, r2)) => Identical(l1, l2) && Identical(r1, r2)
    case _ => false
  }

  /** Equal lengths and some one-to-one pairing of `c` with `d` whose pairs are identical. */
  function ExpressionListsAreEqual(c: seq<Expr>, d: seq<Expr>): bool
  {
    |c| == |d| &&
    (c == [] ||
     exists j :: 0 <= j < |d| && Identical(c[0], d[j]) && ExpressionListsAreEqual(c[1..], RemoveAt(d, j)))
  }

  /** Different kinds are never identical. */
  lemma IdenticalSameKind(a: Expr, b: Expr)
    requires Identical(a, b)
    ensures TypeTag(a) == TypeTag(b)
  {
  }

  /** Leaves compare by name and by value. */
  lemma IdenticalLeaves(x: string, y: string, u: real, v: real)
    ensures Identical(Identifier(x), Identifier(y)) <==> x == y
    ensures Identical(Number(u), Number(v)) <==> u == v
  {
  }

  /** Fractions, powers and assignments compare their two parts in order: a/b is not b/a. */
  lemma IdenticalInOrder(a: Expr, b: Expr, c: Expr, d: Expr)
    ensures Identical(Fraction(a, b), Fraction(c, d)) <==> Identical(a, c) && Identical(b, d)
    ensures Identical(Power(a, b), Power(c, d)) <==> Identical(a, c) && Identical(b, d)
    ensures Identical(Assignment(a, b), Assignment(c, d)) <==> Identical(a, c) && Identical(b, d)
    ensures !Identical(Fraction(Identifier("a"), Identifier("b")), Fraction(Identifier("b"), Identifier("a")))
  {
  }

  /** Identical child lists have equal lengths. */
  lemma ListsAreEqualLength(c: seq<Expr>, d: seq<Expr>)
    requires ExpressionListsAreEqual(c, d)
    ensures |c| == |d|
  {
  }

  lemma {:induction false} IdenticalReflexive(a: Expr)
    ensures Identical(a, a)
  {
    match a
    case Identifier(_) =>
    case Number(_) =>
    case Sum(s) => ListsAreEqualReflexive(s);
    case Product(s) => ListsAreEqualReflexive(s);
    case Fraction(n, d) => IdenticalReflexive(n); IdenticalReflexive(d);
    case Power(b, e) => IdenticalReflexive(b); IdenticalReflexive(e);
    case FunctionCall(_, s) => ListsAreEqualReflexive(s);
    case Assignment(l, r) => IdenticalReflexive(l); IdenticalReflexive(r);
  }

  lemma {:induction false} ListsAreEqualReflexive(c: seq<Expr>)
    ensures ExpressionListsAreEqual(c, c)
  {
    if c != [] {
      IdenticalReflexive(c[0]);
      ListsAreEqualReflexive(c[1..]);
      assert RemoveAt(c, 0) == c[1..];
    }
  }

  /** Child order does not matter: any rearrangement of a list is equal to it. */
  lemma {:induction false} PermutedListsAreEqual(c: seq<Expr>, d: seq<Expr>)
    requires multiset(c) == multiset(d)
    ensures ExpressionListsAreEqual(c, d)
  {
    assert |c| == |multiset(c)| == |multiset(d)| == |d|;
    if c != [] {
      assert c[0] in multiset(d);
      var j :| 0 <= j < |d| && d[j] == c[0];
      IdenticalReflexive(c[0]);
      assert c == [c[0]] + c[1..];
      assert multiset(c[1..]) == multiset(c) - multiset{c[0]};
      PermutedListsAreEqual(c[1..], RemoveAt(d, j));
    }
  }

  /** Where each element of `RemoveAt(s, j)` comes from. */
  lemma RemoveAtIndex<T>(s: seq<T>, j: nat)
    requires j < |s|
    ensures forall i :: 0 <= i < j ==> RemoveAt(s, j)[i] == s[i]
    ensures forall i :: j <= i < |s| - 1 ==> RemoveAt(s, j)[i] == s[i + 1]
  {
  }

  /** Removing the elements at `m` and `k` (m < k) in either order leaves the same list. */
  lemma RemoveTwo<T>(s: seq<T>, m: nat, k: nat)
    requires m < k < |s|
    ensures RemoveAt(RemoveAt(s, k), m) == RemoveAt(RemoveAt(s, m), k - 1)
  {
    RemoveAtIndex(s, k);
    RemoveAtIndex(s, m);
    RemoveAtIndex(RemoveAt(s, k), m);
    RemoveAtIndex(RemoveAt(s, m), k - 1);
  }

  /** In a pairing of `c` with `d`, any element of `d` can be the one paired first. */
  lemma {:induction false} ListsAreEqualAtRight(c: seq<Expr>, d: seq<Expr>, m: nat)
    requires ExpressionListsAreEqual(c, d)
    requires m < |d|
    ensures exists i :: 0 <= i < |c| && Identical(c[i], d[m]) &&
                        ExpressionListsAreEqual(RemoveAt(c, i), RemoveAt(d, m))
    decreases |c|
  {
    var j :| 0 <= j < |d| && Identical(c[0], d[j]) && ExpressionListsAreEqual(c[1..], RemoveAt(d, j));
    if m == j {
      assert RemoveAt(c, 0) == c[1..];
      assert Identical(c[0], d[m]) && ExpressionListsAreEqual(RemoveAt(c, 0), RemoveAt(d, m));
    } else {
      var rest := RemoveAt(d, j);
      var m' := if m < j then m else m - 1;
      var right := RemoveAt(d, m);
      var j' := if j < m then j else j - 1;
      RemoveEither(d, j, m);
      ListsAreEqualAtRight(c[1..], rest, m');
      var i' :| 0 <= i' < |c[1..]| && Identical(c[1..][i'], rest[m']) &&
                ExpressionListsAreEqual(RemoveAt(c[1..], i'), RemoveAt(rest, m'));
      PairedFirst(c[0], RemoveAt(c[1..], i'), right, j');
      RemoveAfterHead(c, i');
      assert Identical(c[i' + 1], d[m]) && ExpressionListsAreEqual(RemoveAt(c, i' + 1), RemoveAt(d, m));
    }
  }

  /** Removing `j` then `m`, or `m` then `j`, from `d` (j != m), with the indices shifted. */
  lemma RemoveEither<T>(d: seq<T>, j: nat, m: nat)
    requires j < |d| && m < |d| && j != m
    ensures RemoveAt(d, j)[if m < j then m else m - 1] == d[m]
    ensures RemoveAt(d, m)[if j < m then j else j - 1] == d[j]
    ensures RemoveAt(RemoveAt(d, m), if j < m then j else j - 1) ==
            RemoveAt(RemoveAt(d, j), if m < j then m else m - 1)
  {
    RemoveAtShifted(d, j, m);
    RemoveAtShifted(d, m, j);
    if j < m { RemoveTwo(d, j, m); } else { RemoveTwo(d, m, j); }
  }

  /** After removing `j`, the element that was at `m` sits one place earlier if it came after. */
  lemma RemoveAtShifted<T>(d: seq<T>, j: nat, m: nat)
    requires j < |d| && m < |d| && j != m
    ensures RemoveAt(d, j)[if m < j then m else m - 1] == d[m]
  {
    RemoveAtIndex(d, j);
  }

  lemma RemoveAfterHead<T>(c: seq<T>, i: nat)
    requires i + 1 < |c|
    ensures RemoveAt(c, i + 1) == [c[0]] + RemoveAt(c[1..], i)
    ensures c[i + 1] == c[1..][i]
  {
  }

  /** A list whose head is identical to some element of `right`, and whose tail is equal to
      the rest of `right`, is equal to `right`. */
  lemma PairedFirst(x: Expr, rest: seq<Expr>, right: seq<Expr>, j: nat)
    requires j < |right| && Identical(x, right[j]) && ExpressionListsAreEqual(rest, RemoveAt(right, j))
    ensures ExpressionListsAreEqual([x] + rest, right)
  {
    assert ([x] + rest)[1..] == rest;
  }

  lemma {:induction false} IdenticalSymmetric(a: Expr, b: Expr)
    requires Identical(a, b)
    ensures Identical(b, a)
    decreases a
  {
    match (a, b)
    case (Sum(s), Sum(t)) => ListsAreEqualSymmetric(s, t);
    case (Product(s), Product(t)) => ListsAreEqualSymmetric(s, t);
    case (Fraction(n1, d1), Fraction(n2, d2)) => IdenticalSymmetric(n1, n2); IdenticalSymmetric(d1, d2);
    case (Power(b1, e1), Power(b2, e2)) => IdenticalSymmetric(b1, b2); IdenticalSymmetric(e1, e2);
    case (FunctionCall(_, s), FunctionCall(_, t)) => ListsAreEqualSymmetric(s, t);
    case (Assignment(l1, r1), Assignment(l2, r2)) => IdenticalSymmetric(l1, l2); IdenticalSymmetric(r1, r2);
    case _ =>
  }

  lemma {:induction false} ListsAreEqualSymmetric(c: seq<Expr>, d: seq<Expr>)
    requires ExpressionListsAreEqual(c, d)
    ensures ExpressionListsAreEqual(d, c)
    decreases c
  {
    if c != [] {
      ListsAreEqualAtRight(c, d, 0);
      var i :| 0 <= i < |c| && Identical(c[i], d[0]) && ExpressionListsAreEqual(RemoveAt(c, i), RemoveAt(d, 0));
      IdenticalSymmetric(c[i], d[0]);
      ListsAreEqualSymmetric(RemoveAt(c, i), RemoveAt(d, 0));
      assert RemoveAt(d, 0) == d[1..];
    }
  }

  /** In a pairing of `c` with `d`, any element of `c` can be the one paired first. */
  lemma ListsAreEqualAtLeft(c: seq<Expr>, d: seq<Expr>, i: nat)
    requires ExpressionListsAreEqual(c, d)
    requires i < |c|
    ensures exists j :: 0 <= j < |d| && Identical(c[i], d[j]) &&
                        ExpressionListsAreEqual(RemoveAt(c, i), RemoveAt(d, j))
  {
    ListsAreEqualSymmetric(c, d);
    ListsAreEqualAtRight(d, c, i);
    var j :| 0 <= j < |d| && Identical(d[j], c[i]) && ExpressionListsAreEqual(RemoveAt(d, j), RemoveAt(c, i));
    IdenticalSymmetric(d[j], c[i]);
    ListsAreEqualSymmetric(RemoveAt(d, j), RemoveAt(c, i));
  }

  lemma {:induction false} IdenticalTransitive(a: Expr, b: Expr, c: Expr)
    requires Identical(a, b) && Identical(b, c)
    ensures Identical(a, c)
    decreases a
  {
    match (a, b, c)
    case (Sum(s), Sum(t), Sum(u)) => ListsAreEqualTransitive(s, t, u);
    case (Product(s), Product(t), Product(u)) => ListsAreEqualTransitive(s, t, u);
    case (Fraction(n1, d1), Fraction(n2, d2), Fraction(n3, d3)) =>
      IdenticalTransitive(n1, n2, n3); IdenticalTransitive(d1, d2, d3);
    case (Power(b1, e1), Power(b2, e2), Power(b3, e3)) =>
      IdenticalTransitive(b1, b2, b3); IdenticalTransitive(e1, e2, e3);
    case (FunctionCall(_, s), FunctionCall(_, t), FunctionCall(_, u)) => ListsAreEqualTransitive(s, t, u);
    case (Assignment(l1, r1), Assignment(l2, r2), Assignment(l3, r3)) =>
      IdenticalTransitive(l1, l2, l3); IdenticalTransitive(r1, r2, r3);
    case _ =>
  }

  lemma {:induction false} ListsAreEqualTransitive(c: seq<Expr>, d: seq<Expr>, e: seq<Expr>)
    requires ExpressionListsAreEqual(c, d) && ExpressionListsAreEqual(d, e)
    ensures ExpressionListsAreEqual(c, e)
    decreases c
  {
    if c != [] {
      var j :| 0 <= j < |d| && Identical(c[0], d[j]) && ExpressionListsAreEqual(c[1..], RemoveAt(d, j));
      ListsAreEqualAtLeft(d, e, j);
      var k :| 0 <= k < |e| && Identical(d[j], e[k]) && ExpressionListsAreEqual(RemoveAt(d, j), RemoveAt(e, k));
      IdenticalTransitive(c[0], d[j], e[k]);
      ListsAreEqualTransitive(c[1..], RemoveAt(d, j), RemoveAt(e, k));
    }
  }

  /** sum([a, 10]) is identical to sum([10, a]), and to neither sum([b, 10, a]) nor sum([a]). */
  lemma SumOrderIgnored()
    ensures Identical(Sum([Identifier("a"), Number(10.0)]), Sum([Number(10.0), Identifier("a")]))
    ensures !Identical(Sum([Identifier("a"), Number(10.0)]),
                       Sum([Identifier("b"), Number(10.0), Identifier("a")]))
    ensures !Identical(Sum([Identifier("a")]), Product([Identifier("a")]))
  {
    assert multiset([Identifier("a"), Number(10.0)]) == multiset([Number(10.0), Identifier("a")]);
    PermutedListsAreEqual([Identifier("a"), Number(10.0)], [Number(10.0), Identifier("a")]);
  }

  /** sin(x) differs from cos(x), and cos(x) from cos(y). */
  lemma FunctionCallsCompareNamesAndArgs()
    ensures !Identical(FunctionCall("sin", [Identifier("x")]), FunctionCall("cos", [Identifier("x")]))
    ensures !Identical(FunctionCall("cos", [Identifier("x")]), FunctionCall("cos", [Identifier("y")]))
  {
    var y := [Identifier("y")];
    assert forall j :: 0 <= j < 1 ==> !Identical(Identifier("x"), y[j]);
  }

  // ---------------------------------------------------------------------------
  // Ordering

  /** JavaScript's `<` on strings: lexicographic by character code. */
  function StringLess(x: string, y: string): bool
  {
    if y == [] then false
    else if x == [] then true
    else if x[0] != y[0] then x[0] < y[0]
    else StringLess(x[1..], y[1..])
  }

  /** `compareExpressions(a, b)`, a boolean "a comes first". When `asWritten` holds, the
      FunctionCall case compares `a.args.length` with `b.length` (always unequal, since an
      expression has no `length`), so two calls of the same name are ordered by argument
      count alone; otherwise it compares the argument lists as intended. */
  function Compare(a: Expr, b: Expr, asWritten: bool): bool
  {
    if TypeTag(a) != TypeTag(b) then TypeTag(a) < TypeTag(b)
    else
      match (a, b)
      case (Identifier(x), Identifier(y)) => StringLess(x, y)
      case (Number(x), Number(y)) => x < y
      case (Sum(s), Sum(t)) => CompareLists(s, t, asWritten)
      case (Product(s), Product(t)) => CompareLists(s, t, asWritten)
      case (Fraction(n1, d1), Fraction(n2, d2)) =>
        if !Identical(n1, n2) then Compare(n1, n2, asWritten)
        else if !Identical(d1, d2) then Compare(d1, d2, asWritten)
        else true
      case (Power(b1, e1), Power(b2, e2)) =>
        if !Identical(b1, b2) then Compare(b1, b2, asWritten)
        else if !Identical(e1, e2) then Compare(e1, e2, asWritten)
        else true
      case (FunctionCall(f, s), FunctionCall(g, t)) =>
        if f != g then StringLess(f, g)
        else if asWritten then |s| < |t|
        else CompareLists(s, t, asWritten)
      case (Assignment(l1, r1), Assignment(l2, r2)) =>
        if !Identical(l1, l2) then Compare(l1, l2, asWritten)
        else if !Identical(r1, r2) then Compare(r1, r2, asWritten)
        else true
      case _ => false
  }

  /** `compareExpressionList`: shorter lists first; otherwise the first non-identical pair
      decides; all pairs identical gives true. */
  function CompareLists(c: seq<Expr>, d: seq<Expr>, asWritten: bool): bool
  {
    if |c| != |d| then |c| < |d|
    else if c == [] then true
    else if !Identical(c[0], d[0]) then Compare(c[0], d[0], asWritten)
    else CompareLists(c[1..], d[1..], asWritten)
  }

  /** The comparator as the source has it. */
  function CompareExpressionsAsWritten(a: Expr, b: Expr): bool
  {
    Compare(a, b, true)
  }

  /** The comparator with the argument lists of same-named calls compared. */
  function CompareExpressions(a: Expr, b: Expr): bool
  {
    Compare(a, b, false)
  }

  /** Distinct strings are ordered one way or the other, never both. */
  lemma {:induction false} StringLessTotal(x: string, y: string)
    requires x != y
    ensures StringLess(x, y) != StringLess(y, x)
  {
    if x != [] && y != [] && x[0] == y[0] {
      assert x == [x[0]] + x[1..] && y == [y[0]] + y[1..];
      StringLessTotal(x[1..], y[1..]);
    }
  }

  /** Where the comparator has a plain answer, it orders every pair one way or the other:
      trees of different kinds by their type, identifiers by name and numbers by value. */
  lemma CompareOrdersLeavesAndKinds(a: Expr, b: Expr, asWritten: bool)
    requires TypeTag(a) != TypeTag(b) || (a.Identifier? && b.Identifier?) || (a.Number? && b.Number?)
    requires !Identical(a, b)
    ensures Compare(a, b, asWritten) != Compare(b, a, asWritten)
  {
    if TypeTag(a) == TypeTag(b) && a.Identifier? {
      StringLessTotal(a.name, b.name);
    }
  }

  /** As written, f(a) and f(b) each come "before" the other never: both answers are false,
      although f(a) and f(b) are not identical and a comes before b. */
  lemma CompareFunctionCallsAsWritten()
    ensures !Identical(FunctionCall("f", [Identifier("a")]), FunctionCall("f", [Identifier("b")]))
    ensures CompareExpressionsAsWritten(Identifier("a"), Identifier("b"))
    ensures !CompareExpressionsAsWritten(FunctionCall("f", [Identifier("a")]), FunctionCall("f", [Identifier("b")]))
    ensures !CompareExpressionsAsWritten(FunctionCall("f", [Identifier("b")]), FunctionCall("f", [Identifier("a")]))
  {
    var t := [Identifier("b")];
    assert forall j :: 0 <= j < 1 ==> !Identical(Identifier("a"), t[j]);
  }

  /** Corrected, calls of one name are ordered by their arguments exactly as sums are
      ordered by their summands. */
  lemma {:induction false} CompareFunctionCallsLikeSums(f: string, s: seq<Expr>, t: seq<Expr>)
    ensures CompareExpressions(FunctionCall(f, s), FunctionCall(f, t)) == CompareExpressions(Sum(s), Sum(t))
    ensures CompareExpressions(FunctionCall("f", [Identifier("a")]), FunctionCall("f", [Identifier("b")]))
  {
    var t1 := [Identifier("b")];
    assert forall j :: 0 <= j < 1 ==> !Identical(Identifier("a"), t1[j]);
  }

  /** The ordering cases of the source's tests: a before b; number 10 not before the
      identifier 5 (kinds decide); sum[a, 10] before sum[10, a] and before sum[b, 10, a];
      sin(x) not before cos(x). */
  lemma CompareTestCases()
    ensures CompareExpressionsAsWritten(Identifier("a"), Identifier("b"))
    ensures !CompareExpressionsAsWritten(Number(10.0), Identifier("5"))
    ensures CompareExpressionsAsWritten(Sum([Identifier("a"), Number(10.0)]), Sum([Number(10.0), Identifier("a")]))
    ensures CompareExpressionsAsWritten(Sum([Identifier("a"), Number(10.0)]),
                                        Sum([Identifier("b"), Number(10.0), Identifier("a")]))
    ensures !CompareExpressionsAsWritten(FunctionCall("sin", [Identifier("x")]), FunctionCall("cos", [Identifier("x")]))
  {
    assert StringLess("a", "b");
    assert !StringLess("sin", "cos");
  }

  // ---------------------------------------------------------------------------
  // Free identifiers

  /** `getParameters` as written: the child lists of a Sum, a Product and a FunctionCall are
      folded with `reduce` and no initial value, which throws a TypeError (`None`) on an
      empty list. */
  function GetParametersAsWritten(e: Expr): Option<seq<string>>
  {
    match e
    case Identifier(n) => Some([n])
    case Sum(s) => ConcatParametersAsWritten(s)
    case Product(s) => ConcatParametersAsWritten(s)
    case Fraction(n, d) =>
      (match (GetParametersAsWritten(n), GetParametersAsWritten(d))
       case (Some(p), Some(q)) => Some(p + q)
       case _ => None)
    case Power(b, x) =>
      (match (GetParametersAsWritten(b), GetParametersAsWritten(x))
       case (Some(p), Some(q)) => Some(p + q)
       case _ => None)
    case FunctionCall(_, s) => ConcatParametersAsWritten(s)
    case _ => Some([])
  }

  /** `list.map(getParameters).reduce((acc, value) => acc.concat(value))`. */
  function ConcatParametersAsWritten(s: seq<Expr>): Option<seq<string>>
  {
    if s == [] then None
    else
      match GetParametersAsWritten(s[0])
      case None => None
      case Some(p) =>
        if |s| == 1 then Some(p)
        else
          match ConcatParametersAsWritten(s[1..])
          case None => None
          case Some(q) => Some(p + q)
  }

  /** `getParameters` with an empty child list contributing no names. */
  function GetParameters(e: Expr): seq<string>
  {
    match e
    case Identifier(n) => [n]
    case Sum(s) => ConcatParameters(s)
    case Product(s) => ConcatParameters(s)
    case Fraction(n, d) => GetParameters(n) + GetParameters(d)
    case Power(b, x) => GetParameters(b) + GetParameters(x)
    case FunctionCall(_, s) => ConcatParameters(s)
    case _ => []
  }

  function ConcatParameters(s: seq<Expr>): seq<string>
  {
    if s == [] then [] else GetParameters(s[0]) + ConcatParameters(s[1..])
  }

  /** As written, the parameters of `f()` (and of any expression containing it) cannot be
      computed; corrected, they are empty. */
  lemma GetParametersOfEmptyCall()
    ensures GetParametersAsWritten(FunctionCall("f", [])) == None
    ensures GetParametersAsWritten(Sum([Identifier("a"), FunctionCall("f", [])])) == None
    ensures GetParameters(FunctionCall("f", [])) == []
  {
  }

  /** Wherever the source returns a list, the corrected collector returns the same list. */
  lemma {:induction false} GetParametersAgrees(e: Expr)
    requires GetParametersAsWritten(e).Some?
    ensures GetParametersAsWritten(e).value == GetParameters(e)
  {
    match e
    case Identifier(_) =>
    case Number(_) =>
    case Sum(s) => ConcatParametersAgrees(s);
    case Product(s) => ConcatParametersAgrees(s);
    case Fraction(n, d) => GetParametersAgrees(n); GetParametersAgrees(d);
    case Power(b, x) => GetParametersAgrees(b); GetParametersAgrees(x);
    case FunctionCall(_, s) => ConcatParametersAgrees(s);
    case Assignment(_, _) =>
  }

  lemma {:induction false} ConcatParametersAgrees(s: seq<Expr>)
    requires ConcatParametersAsWritten(s).Some?
    ensures ConcatParametersAsWritten(s).value == ConcatParameters(s)
  {
    GetParametersAgrees(s[0]);
    if |s| > 1 {
      ConcatParametersAgrees(s[1..]);
    } else {
      assert s[1..] == [];
    }
  }

  /** `x` names an Identifier leaf of `e` that is not inside an Assignment. */
  predicate Mentions(e: Expr, x: string)
  {
    match e
    case Identifier(n) => n == x
    case Sum(s) => exists i :: 0 <= i < |s| && Mentions(s[i], x)
    case Product(s) => exists i :: 0 <= i < |s| && Mentions(s[i], x)
    case Fraction(n, d) => Mentions(n, x) || Mentions(d, x)
    case Power(b, p) => Mentions(b, x) || Mentions(p, x)
    case FunctionCall(_, s) => exists i :: 0 <= i < |s| && Mentions(s[i], x)
    case _ => false
  }

  /** The collected names are exactly the mentioned identifiers; a call's own name is not one. */
  lemma {:induction false} GetParametersMentions(e: Expr, x: string)
    ensures x in GetParameters(e) <==> Mentions(e, x)
  {
    match e
    case Identifier(_) =>
    case Number(_) =>
    case Sum(s) => ConcatParametersMentions(s, x);
    case Product(s) => ConcatParametersMentions(s, x);
    case Fraction(n, d) => GetParametersMentions(n, x); GetParametersMentions(d, x);
    case Power(b, p) => GetParametersMentions(b, x); GetParametersMentions(p, x);
    case FunctionCall(_, s) => ConcatParametersMentions(s, x);
    case Assignment(_, _) =>
  }

  lemma {:induction false} ConcatParametersMentions(s: seq<Expr>, x: string)
    ensures x in ConcatParameters(s) <==> exists i :: 0 <= i < |s| && Mentions(s[i], x)
  {
    if s != [] {
      GetParametersMentions(s[0], x);
      ConcatParametersMentions(s[1..], x);
      if exists i :: 0 <= i < |s| && Mentions(s[i], x) {
        var i :| 0 <= i < |s| && Mentions(s[i], x);
        if i > 0 {
          assert Mentions(s[1..][i - 1], x);
        }
      }
      if exists i :: 0 <= i < |s[1..]| && Mentions(s[1..][i], x) {
        var i :| 0 <= i < |s[1..]| && Mentions(s[1..][i], x);
        assert Mentions(s[i + 1], x);
      }
    }
  }

  /** The names of `a + g * g - 4 * h(x + d)` (as the parser nests it), left to right. */
  lemma GetParametersExample()
    ensures GetParameters(
              Sum([Identifier("a"),
                   Subtraction(Product([Identifier("g"), Identifier("g")]),
                               Product([Number(4.0), FunctionCall("h", [Sum([Identifier("x"), Identifier("d")])])]))]))
            == ["a", "g", "g", "x", "d"]
  {
    var call := FunctionCall("h", [Sum([Identifier("x"), Identifier("d")])]);
    assert GetParameters(call) == ["x", "d"] by {
      assert ConcatParameters([Identifier("x"), Identifier("d")]) == ["x", "d"];
    }
    assert ConcatParameters([call]) == ["x", "d"];
    var s4 := [Number(4.0), call];
    assert s4[1..] == [call];
    assert ConcatParameters(s4) == GetParameters(s4[0]) + ConcatParameters(s4[1..]);
    var p4 := Product(s4);
    assert ConcatParameters([p4]) == ["x", "d"];
    var s1 := [Number(-1.0), p4];
    assert s1[1..] == [p4];
    assert ConcatParameters(s1) == GetParameters(s1[0]) + ConcatParameters(s1[1..]);
    assert GetParameters(Product([Identifier("g"), Identifier("g")])) == ["g", "g"];
  }
}
