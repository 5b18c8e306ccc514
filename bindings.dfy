/** A JavaScript object filled from a list of `[name, value]` pairs in a for loop
    (`scope[symbol[0]] = symbol[1]`), as src/math/symbolStore.js and src/math/evaluate.js
    both do: a later pair with the same name overwrites an earlier one. */
module Bindings {

  /** The dictionary the loop leaves behind. */
  function BindingsMap<V>(pairs: seq<(string, V)>): (m: map<string, V>)
    ensures m.Keys == set i | 0 <= i < |pairs| :: pairs[i].0
  {
    if pairs == [] then map[]
    else
      var last := pairs[|pairs| - 1];
      var m0 := BindingsMap(pairs[..|pairs| - 1]);
      assert forall i :: 0 <= i < |pairs| - 1 ==> pairs[..|pairs| - 1][i] == pairs[i];
      m0[last.0 := last.1]
  }

  /** A name is bound to the value of the LAST pair that carries it. */
  lemma {:induction false} LastBindingWins<V>(pairs: seq<(string, V)>, i: nat)
    requires i < |pairs|
    requires forall k :: i < k < |pairs| ==> pairs[k].0 != pairs[i].0
    ensures pairs[i].0 in BindingsMap(pairs)
    ensures BindingsMap(pairs)[pairs[i].0] == pairs[i].1
  {
    if i < |pairs| - 1 {
      var init := pairs[..|pairs| - 1];
      assert init[i] == pairs[i];
      LastBindingWins(init, i);
    }
  }

  /** Every entry of the dictionary comes from some pair. */
  lemma {:induction false} BindingsMapValues<V>(pairs: seq<(string, V)>, k: string)
    requires k in BindingsMap(pairs)
    ensures exists i :: 0 <= i < |pairs| && pairs[i].0 == k && pairs[i].1 == BindingsMap(pairs)[k]
  {
    var last := pairs[|pairs| - 1];
    var init := pairs[..|pairs| - 1];
    if k != last.0 {
      BindingsMapValues(init, k);
      var i :| 0 <= i < |init| && init[i].0 == k && init[i].1 == BindingsMap(init)[k];
      assert pairs[i] == init[i];
    }
  }

  lemma BindingsMapOfOne<V>(p: (string, V))
    ensures BindingsMap([p]) == map[p.0 := p.1]
  {
    assert [p][..0] == [];
  }

  lemma BindingsMapOfTwo<V>(p: (string, V), q: (string, V))
    ensures BindingsMap([p, q]) == map[p.0 := p.1][q.0 := q.1]
  {
    assert [p, q][..1] == [p];
    BindingsMapOfOne(p);
  }

  /** One more pair adds or overwrites one entry. */
  lemma BindingsMapSnoc<V>(pairs: seq<(string, V)>, p: (string, V))
    ensures BindingsMap(pairs + [p]) == BindingsMap(pairs)[p.0 := p.1]
  {
    assert (pairs + [p])[..|pairs|] == pairs;
  }

  /** The for loop itself. */
  method FillMap<V>(pairs: seq<(string, V)>) returns (m: map<string, V>)
    ensures m == BindingsMap(pairs)
  {
    m := map[];
    for i := 0 to |pairs|
      invariant m == BindingsMap(pairs[..i])
    {
      assert pairs[..i + 1][..i] == pairs[..i];
      m := m[pairs[i].0 := pairs[i].1];
    }
    assert pairs[..|pairs|] == pairs;
  }
}
