// What `combineElements` and the pairwise expansion of sums compute, stated over the whole
// list rather than step by step: like terms are grouped by `identical`, one element per
// group, and a product of two sums has one simplified product per pair of summands.

module SimplifierTerms {
  import opened Wrappers
  import opened Expression
  import opened Simplifier
  import ListUtil

  // ---------------------------------------------------------------------------
  // The two filters of `combineElements`

  /** The terms like `x` and the terms unlike `x` split the list: every term lands in
      exactly one of the two. */
  lemma {:induction false} LikeUnlikePartition(terms: seq<Term>, x: Expr)
    ensures multiset(LikeTerms(terms, x)) + multiset(UnlikeTerms(terms, x)) == multiset(terms)
  {
    if terms != [] {
      var t, tail := terms[0], terms[1..];
      LikeUnlikePartition(tail, x);
      var like, unlike := LikeTerms(tail, x), UnlikeTerms(tail, x);
      assert terms == [t] + tail;
      if Identical(t.expr, x) {
        IdenticalSymmetric(t.expr, x);
        assert LikeTerms(terms, x) == [t] + like;
        assert UnlikeTerms(terms, x) == [] + unlike;
      } else {
        if Identical(x, t.expr) {
          IdenticalSymmetric(x, t.expr);
        }
        assert LikeTerms(terms, x) == [] + like;
        assert UnlikeTerms(terms, x) == [t] + unlike;
      }
    }
  }

  /** Filtering out the terms like `x` first does not change which terms are like `y`, when
      nothing like `y` is like `x`. */
  lemma {:induction false} LikeAfterUnlike(terms: seq<Term>, x: Expr, y: Expr)
    requires forall i :: 0 <= i < |terms| && Identical(terms[i].expr, y) ==> !Identical(x, terms[i].expr)
    ensures LikeTerms(UnlikeTerms(terms, x), y) == LikeTerms(terms, y)
  {
    if terms != [] {
      assert forall i :: 1 <= i < |terms| ==> terms[1..][i - 1] == terms[i];
      LikeAfterUnlike(terms[1..], x, y);
      var t := terms[0];
      if Identical(x, t.expr) {
        assert !Identical(t.expr, y);
        assert UnlikeTerms(terms, x) == [] + UnlikeTerms(terms[1..], x);
        assert [] + UnlikeTerms(terms[1..], x) == UnlikeTerms(terms[1..], x);
      } else {
        assert UnlikeTerms(terms, x) == [t] + UnlikeTerms(terms[1..], x);
        assert ([t] + UnlikeTerms(terms[1..], x))[1..] == UnlikeTerms(terms[1..], x);
      }
    }
  }

  // ---------------------------------------------------------------------------
  // Groups of like terms

  /** The first term of each group of identical expressions, in order of first occurrence:
      the successive heads `combineElements` recurses on. */
  function Heads(list: seq<Term>): (r: seq<Term>)
    decreases |list|
  {
    if list == [] then [] else [list[0]] + Heads(UnlikeTerms(list[1..], list[0].expr))
  }

  lemma {:induction false} HeadsInList(list: seq<Term>)
    ensures forall i :: 0 <= i < |Heads(list)| ==> Heads(list)[i] in list
    decreases |list|
  {
    if list != [] {
      var rest := UnlikeTerms(list[1..], list[0].expr);
      HeadsInList(rest);
      assert forall i :: 1 <= i < |Heads(list)| ==> Heads(list)[i] == Heads(rest)[i - 1];
    }
  }

  /** No two heads are identical: each group has one head. */
  lemma {:induction false} HeadsDistinct(list: seq<Term>)
    ensures forall i, j :: 0 <= i < j < |Heads(list)| ==> !Identical(Heads(list)[i].expr, Heads(list)[j].expr)
    decreases |list|
  {
    if list != [] {
      var rest := UnlikeTerms(list[1..], list[0].expr);
      var h := Heads(list);
      HeadsDistinct(rest);
      HeadsInList(rest);
      assert forall j :: 1 <= j < |h| ==> h[j] == Heads(rest)[j - 1];
      forall i, j | 0 <= i < j < |h|
        ensures !Identical(h[i].expr, h[j].expr)
      {
        if i == 0 {
          var k :| 0 <= k < |rest| && rest[k] == h[j];
        }
      }
    }
  }

  /** Every term belongs to the group of some head. */
  lemma {:induction false} HeadsCover(list: seq<Term>, t: Term)
    requires t in list
    ensures exists i :: 0 <= i < |Heads(list)| && Identical(t.expr, Heads(list)[i].expr)
    decreases |list|
  {
    var h := Heads(list);
    var rest := UnlikeTerms(list[1..], list[0].expr);
    if t == list[0] {
      IdenticalReflexive(t.expr);
      assert Identical(t.expr, h[0].expr);
    } else if Identical(list[0].expr, t.expr) {
      IdenticalSymmetric(list[0].expr, t.expr);
      assert Identical(t.expr, h[0].expr);
    } else {
      var k :| 1 <= k < |list| && list[k] == t;
      assert list[1..][k - 1] == t;
      HeadsCover(rest, t);
      var i :| 0 <= i < |Heads(rest)| && Identical(t.expr, Heads(rest)[i].expr);
      assert h[i + 1] == Heads(rest)[i];
    }
  }

  /** The element a group makes: its coefficients folded from the first term's, then
      combined with the first term's expression. */
  function CombinedOf(group: seq<Term>, k: Assoc, fuel: nat): Outcome<Expr>
    requires |group| > 0
  {
    var n :- FoldCoefficients(group[1..], group[0].coeff, fuel);
    Combine(k, n, group[0].expr, fuel)
  }

  /** The element `combineElements` makes for head `h`: the coefficients of `h`'s group,
      `h`'s own first, folded in list order, then combined with `h`'s expression. */
  predicate GroupCombined(list: seq<Term>, h: Term, k: Assoc, fuel: nat, e: Expr)
  {
    var group := LikeTerms(list, h.expr);
    |group| > 0 && group[0] == h &&
    CombinedOf(group, k, fuel) == Ok(e)
  }

  /** `combineElements` yields one element per group of identical expressions, in order of
      first occurrence, each combining the whole group's coefficients. */
  lemma {:induction false} CombineElementsByGroup(list: seq<Term>, k: Assoc, fuel: nat, r: seq<Expr>)
    requires CombineElements(list, k, fuel) == Ok(r)
    ensures |r| == |Heads(list)|
    ensures forall i :: 0 <= i < |r| ==> GroupCombined(list, Heads(list)[i], k, fuel, r[i])
    decreases |list|
  {
    if list != [] {
      var head := list[0];
      var tail := list[1..];
      var rest := UnlikeTerms(tail, head.expr);
      var others := r[1..];
      GroupOfFirstHead(list, k, fuel, r);
      CombineElementsByGroup(rest, k, fuel, others);
      GroupsExtend(list, k, fuel, r[0], others);
      assert r == [r[0]] + others;
    }
  }

  /** The groups of the terms unlike the first head, with the first head's group in front,
      are the groups of the whole list. */
  lemma GroupsExtend(list: seq<Term>, k: Assoc, fuel: nat, first: Expr, others: seq<Expr>)
    requires list != [] && GroupCombined(list, list[0], k, fuel, first)
    requires var hs := Heads(UnlikeTerms(list[1..], list[0].expr));
             |others| == |hs| &&
             forall i :: 0 <= i < |others| ==> GroupCombined(UnlikeTerms(list[1..], list[0].expr), hs[i], k, fuel, others[i])
    ensures |[first] + others| == |Heads(list)|
    ensures forall i :: 0 <= i < |others| + 1 ==> GroupCombined(list, Heads(list)[i], k, fuel, ([first] + others)[i])
  {
    var rest := UnlikeTerms(list[1..], list[0].expr);
    var hs := Heads(rest);
    var h := Heads(list);
    var r := [first] + others;
    assert h == [list[0]] + hs;
    HeadsInList(rest);
    forall i | 0 <= i < |r|
      ensures GroupCombined(list, h[i], k, fuel, r[i])
    {
      if i > 0 {
        assert h[i] == hs[i - 1] && r[i] == others[i - 1];
        GroupOfLaterHead(list, hs[i - 1], k, fuel, others[i - 1]);
      }
    }
  }

  /** The first element combines the first term's group; the others come from the terms
      unlike it. */
  lemma GroupOfFirstHead(list: seq<Term>, k: Assoc, fuel: nat, r: seq<Expr>)
    requires list != [] && CombineElements(list, k, fuel) == Ok(r)
    ensures |r| > 0 && GroupCombined(list, list[0], k, fuel, r[0])
    ensures CombineElements(UnlikeTerms(list[1..], list[0].expr), k, fuel) == Ok(r[1..])
  {
    var head, tail := list[0], list[1..];
    IdenticalReflexive(head.expr);
    assert list == [head] + tail;
    assert LikeTerms(list, head.expr) == [head] + LikeTerms(tail, head.expr);
  }

  /** A head after the first keeps its group when the first head's group is put back:
      nothing in it is like the first head. */
  lemma GroupOfLaterHead(list: seq<Term>, g: Term, k: Assoc, fuel: nat, e: Expr)
    requires list != []
    requires g in UnlikeTerms(list[1..], list[0].expr)
    requires GroupCombined(UnlikeTerms(list[1..], list[0].expr), g, k, fuel, e)
    ensures GroupCombined(list, g, k, fuel, e)
  {
    var head, tail := list[0], list[1..];
    assert !Identical(head.expr, g.expr);
    forall j | 0 <= j < |tail| && Identical(tail[j].expr, g.expr)
      ensures !Identical(head.expr, tail[j].expr)
    {
      if Identical(head.expr, tail[j].expr) {
        IdenticalTransitive(head.expr, tail[j].expr, g.expr);
      }
    }
    LikeAfterUnlike(tail, head.expr, g.expr);
    assert list == [head] + tail;
    assert LikeTerms(list, g.expr) == LikeTerms(tail, g.expr);
  }

  // ---------------------------------------------------------------------------
  // Expanding products of sums

  /** `pairs.map(([a, b]) => simplify(product([a, b])))` simplifies each pair in place and
      fails iff some pair fails. */
  lemma {:induction false} MapSimplifyPairsAt(pairs: seq<(Expr, Expr)>, fuel: nat)
    ensures MapSimplifyPairs(pairs, fuel).Ok? ==>
            forall i :: 0 <= i < |pairs| ==>
              Simplify(Product([pairs[i].0, pairs[i].1]), fuel) == Ok(MapSimplifyPairs(pairs, fuel).value[i])
    ensures MapSimplifyPairs(pairs, fuel).Err? <==>
            exists i :: 0 <= i < |pairs| && Simplify(Product([pairs[i].0, pairs[i].1]), fuel).Err?
  {
    if pairs != [] {
      MapSimplifyPairsAt(pairs[1..], fuel);
      assert forall i :: 1 <= i < |pairs| ==> pairs[1..][i - 1] == pairs[i];
      if Simplify(Product([pairs[0].0, pairs[0].1]), fuel).Err? {
        assert MapSimplifyPairs(pairs, fuel).Err?;
      } else if MapSimplifyPairs(pairs[1..], fuel).Err? {
        var i :| 0 <= i < |pairs[1..]| && Simplify(Product([pairs[1..][i].0, pairs[1..][i].1]), fuel).Err?;
        assert Simplify(Product([pairs[i + 1].0, pairs[i + 1].1]), fuel).Err?;
      }
    }
  }

  /** Multiplying out two sums: the summand `i * |b| + j` of the expansion is the simplified
      product of the `i`-th summand of the first sum and the `j`-th of the second. */
  lemma ExpandTwoSums(a: seq<Expr>, b: seq<Expr>, fuel: nat, r: seq<Expr>, i: nat, j: nat)
    requires ExpandSums(Sum(a), [Sum(b)], fuel) == Ok(Sum(r))
    requires i < |a| && j < |b|
    ensures i * |b| + j < |r| && Simplify(Product([a[i], b[j]]), fuel) == Ok(r[i * |b| + j])
  {
    ExpandedPairs(a, b, fuel, r);
    PairSimplifiedAt(a, b, fuel, r, i, j);
  }

  /** The expansion of two sums has one summand per pair of their summands. */
  lemma ExpandTwoSumsCount(a: seq<Expr>, b: seq<Expr>, fuel: nat, r: seq<Expr>)
    requires ExpandSums(Sum(a), [Sum(b)], fuel) == Ok(Sum(r))
    ensures |r| == |a| * |b|
  {
    ExpandedPairs(a, b, fuel, r);
    ListUtil.PairsLength(a, b);
  }

  /** Two sums expand to the simplified pairs of their summands. */
  lemma ExpandedPairs(a: seq<Expr>, b: seq<Expr>, fuel: nat, r: seq<Expr>)
    requires ExpandSums(Sum(a), [Sum(b)], fuel) == Ok(Sum(r))
    ensures MapSimplifyPairs(ListUtil.Pairs(a, b), fuel) == Ok(r)
  {
    assert [Sum(b)][1..] == [];
  }

  lemma PairSimplifiedAt(a: seq<Expr>, b: seq<Expr>, fuel: nat, r: seq<Expr>, i: nat, j: nat)
    requires MapSimplifyPairs(ListUtil.Pairs(a, b), fuel) == Ok(r)
    requires i < |a| && j < |b|
    ensures i * |b| + j < |r| && Simplify(Product([a[i], b[j]]), fuel) == Ok(r[i * |b| + j])
  {
    var pairs := ListUtil.Pairs(a, b);
    var k := i * |b| + j;
    ListUtil.PairsAt(a, b, i, j);
    assert k < |pairs| && pairs[k] == (a[i], b[j]);
    PairSimplifiedAtIndex(pairs, fuel, r, k);
  }

  lemma PairSimplifiedAtIndex(pairs: seq<(Expr, Expr)>, fuel: nat, r: seq<Expr>, k: nat)
    requires MapSimplifyPairs(pairs, fuel) == Ok(r)
    requires k < |pairs|
    ensures Simplify(Product([pairs[k].0, pairs[k].1]), fuel) == Ok(r[k])
  {
    MapSimplifyPairsAt(pairs, fuel);
  }
}
