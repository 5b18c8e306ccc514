/** The list helpers of src/listUtil.js that the simplifier and the evaluator use. */
module ListUtil {
  import opened Wrappers

  /** `zip(a, b)` maps over `a`, so the result has one pair per element of `a`;
      where `b` is shorter the second component is JavaScript's `undefined`, here `None`. */
  function Zip<A, B>(a: seq<A>, b: seq<B>): (r: seq<(A, Option<B>)>)
    ensures |r| == |a|
    ensures forall i :: 0 <= i < |a| ==> r[i].0 == a[i]
    ensures forall i :: 0 <= i < |a| && i < |b| ==> r[i].1 == Some(b[i])
    ensures forall i :: |b| <= i < |a| ==> r[i].1 == None
  {
    seq(|a|, i requires 0 <= i < |a| => (a[i], if i < |b| then Some(b[i]) else None))
  }

  /** The first components of a sequence of pairs. */
  function Firsts<A, B>(z: seq<(A, B)>): (r: seq<A>)
    ensures |r| == |z|
  {
    seq(|z|, i requires 0 <= i < |z| => z[i].0)
  }

  /** Zipping with a list at least as long loses nothing: the first components give `a` back
      and every second component is present. */
  lemma ZipUnzip<A, B>(a: seq<A>, b: seq<B>)
    requires |a| <= |b|
    ensures Firsts(Zip(a, b)) == a
    ensures forall i :: 0 <= i < |a| ==> Zip(a, b)[i].1 == Some(b[i])
  {
  }

  /** One row of the Cartesian product: `x` paired with every element of `b`, in order. */
  function Row<A, B>(x: A, b: seq<B>): (r: seq<(A, B)>)
    ensures |r| == |b|
    ensures forall j :: 0 <= j < |b| ==> r[j] == (x, b[j])
  {
    seq(|b|, j requires 0 <= j < |b| => (x, b[j]))
  }

  /** The Cartesian product as a value: the row of `a[0]`, then the rows of the rest. */
  function Pairs<A, B>(a: seq<A>, b: seq<B>): seq<(A, B)>
  {
    if a == [] then [] else Row(a[0], b) + Pairs(a[1..], b)
  }

  /** `product(a, b)` has |a|·|b| elements, in a-major order: element i·|b|+j is (a[i], b[j]). */
  lemma {:induction false} PairsAt<A, B>(a: seq<A>, b: seq<B>, i: nat, j: nat)
    requires i < |a| && j < |b|
    ensures |Pairs(a, b)| == |a| * |b|
    ensures i * |b| + j < |a| * |b|
    ensures Pairs(a, b)[i * |b| + j] == (a[i], b[j])
  {
    PairsLength(a, b);
    if i == 0 {
      assert Pairs(a, b)[j] == Row(a[0], b)[j];
    } else {
      PairsAt(a[1..], b, i - 1, j);
      assert (i - 1) * |b| + j + |b| == i * |b| + j;
      assert Pairs(a, b)[i * |b| + j] == Pairs(a[1..], b)[(i - 1) * |b| + j];
    }
  }

  lemma {:induction false} PairsLength<A, B>(a: seq<A>, b: seq<B>)
    ensures |Pairs(a, b)| == |a| * |b|
  {
    if a != [] {
      PairsLength(a[1..], b);
      assert |a| * |b| == |b| + (|a| - 1) * |b|;
    }
  }

  /** Adding one more element of `a` adds its row at the end. */
  lemma {:induction false} PairsSnoc<A, B>(a: seq<A>, x: A, b: seq<B>)
    ensures Pairs(a + [x], b) == Pairs(a, b) + Row(x, b)
  {
    if a == [] {
      assert [x][1..] == [];
    } else {
      assert (a + [x])[1..] == a[1..] + [x];
      PairsSnoc(a[1..], x, b);
    }
  }

  /** `product(a, b)`: two nested for-of loops pushing `[c, d]` onto `elements`. */
  method Product<A, B>(a: seq<A>, b: seq<B>) returns (elements: seq<(A, B)>)
    ensures elements == Pairs(a, b)
  {
    elements := [];
    for i := 0 to |a|
      invariant elements == Pairs(a[..i], b)
    {
      ghost var before := elements;
      for j := 0 to |b|
        invariant elements == before + Row(a[i], b[..j])
      {
        assert Row(a[i], b[..j + 1]) == Row(a[i], b[..j]) + [(a[i], b[j])];
        elements := elements + [(a[i], b[j])];
      }
      assert b[..|b|] == b;
      assert a[..i + 1] == a[..i] + [a[i]];
      PairsSnoc(a[..i], a[i], b);
    }
    assert a[..|a|] == a;
  }
}
