/** The scoped symbol store of src/math/symbolStore.js: a list of scopes, each a dictionary
    object from names to symbols, and a position up to which scopes are visible. Scopes are
    objects: `setSymbol` writes into one in place, and every store sharing it sees the write. */
module Symbols {
  import opened Wrappers
  import opened Expression
  import opened Bindings
  import Util

  /** The four symbol shapes: VALUE symbols (`constant`, `variable`) and FUNCTION symbols
      (`builtinFunc`, `customFunc`). */
  datatype Symbol =
    | Constant(value: real)
    | Variable(expr: Expr)
    | BuiltinFunction(func: seq<real> -> real, argCount: nat)
    | CustomFunction(expr: Expr, argNames: seq<string>)

  predicate IsValue(symbol: Symbol)
  {
    symbol.Constant? || symbol.Variable?
  }

  predicate IsFunction(symbol: Symbol)
  {
    symbol.BuiltinFunction? || symbol.CustomFunction?
  }

  /** What a store operation throws. */
  datatype StoreError = Assertion(error: Util.AssertError) | TypeError

  /** `funcFromAssignment(assignment)`: `[left.name, customFunc(right, argNames)]`; `None`
      where `left.args` cannot be read (a TypeError). */
  function FuncFromAssignment(assignment: Expr): (r: Option<(string, Symbol)>)
    ensures r.Some? <==> assignment.Assignment? && assignment.left.FunctionCall?
    ensures r.Some? ==> r.value.0 == assignment.left.name && r.value.1.CustomFunction? &&
                        r.value.1.expr == assignment.right &&
                        |r.value.1.argNames| == |assignment.left.args|
    ensures IsFunctionDefinition(assignment) ==>
              r.Some? && forall i :: 0 <= i < |assignment.left.args| ==>
                           r.value.1.argNames[i] == assignment.left.args[i].name
  {
    if assignment.Assignment? && assignment.left.FunctionCall? then
      var left := assignment.left;
      var argNames := seq(|left.args|, i requires 0 <= i < |left.args| => NameField(left.args[i]));
      Some((left.name, CustomFunction(assignment.right, argNames)))
    else None
  }

  /** `variableFromAssignment(assignment)`: `[left.name, variable(right)]`; `None` where
      `left` cannot be read. */
  function VariableFromAssignment(assignment: Expr): (r: Option<(string, Symbol)>)
    ensures r.Some? <==> assignment.Assignment?
    ensures r.Some? ==> r.value.1 == Variable(assignment.right) && IsValue(r.value.1)
    ensures r.Some? && assignment.left.Identifier? ==> r.value.0 == assignment.left.name
  {
    if assignment.Assignment? then Some((NameField(assignment.left), Variable(assignment.right))) else None
  }

  /** One scope: a dictionary object that `setSymbol` updates in place. */
  class Scope {
    var bindings: map<string, Symbol>

    constructor(bindings: map<string, Symbol>)
      ensures this.bindings == bindings
    {
      this.bindings := bindings;
    }
  }

  // ---------------------------------------------------------------------------
  // Lookup, on the scopes' contents

  /** The dictionaries of a list of scopes. */
  function Contents(scopes: seq<Scope>): (r: seq<map<string, Symbol>>)
    reads set i | 0 <= i < |scopes| :: scopes[i]
    ensures |r| == |scopes|
    ensures forall i :: 0 <= i < |scopes| ==> r[i] == scopes[i].bindings
  {
    seq(|scopes|, i reads set i | 0 <= i < |scopes| :: scopes[i] requires 0 <= i < |scopes| => scopes[i].bindings)
  }

  /** The index of the innermost scope below `position` that binds `name`: the search runs
      from `position - 1` down to 0. */
  function Innermost(name: string, scopes: seq<map<string, Symbol>>, position: nat): Option<nat>
    requires position <= |scopes|
    decreases position
  {
    if position == 0 then None
    else if name in scopes[position - 1] then Some(position - 1)
    else Innermost(name, scopes, position - 1)
  }

  /** Shadowing: the scope found is the highest visible one binding the name, and nothing is
      found exactly when no visible scope binds it. */
  lemma {:induction false} InnermostIsHighestBinding(name: string, scopes: seq<map<string, Symbol>>, position: nat)
    requires position <= |scopes|
    ensures Innermost(name, scopes, position).None? <==> forall j :: 0 <= j < position ==> name !in scopes[j]
    ensures Innermost(name, scopes, position).Some? ==>
              var i := Innermost(name, scopes, position).value;
              i < position && name in scopes[i] && forall j :: i < j < position ==> name !in scopes[j]
    decreases position
  {
    if position > 0 && name !in scopes[position - 1] {
      InnermostIsHighestBinding(name, scopes, position - 1);
    }
  }

  /** Scopes at or above `position` are invisible. */
  lemma {:induction false} InnermostIgnoresHigherScopes(name: string, scopes: seq<map<string, Symbol>>,
                                                       more: seq<map<string, Symbol>>, position: nat)
    requires position <= |scopes|
    ensures Innermost(name, scopes + more, position) == Innermost(name, scopes, position)
    decreases position
  {
    if position > 0 {
      assert (scopes + more)[position - 1] == scopes[position - 1];
      InnermostIgnoresHigherScopes(name, scopes, more, position - 1);
    }
  }

  /** A new top scope shadows: it answers for the names it binds, and the old scopes answer
      for the rest. */
  lemma InnermostAfterNewScope(name: string, scopes: seq<map<string, Symbol>>, top: map<string, Symbol>)
    ensures Innermost(name, scopes + [top], |scopes| + 1) ==
            if name in top then Some(|scopes|) else Innermost(name, scopes, |scopes|)
  {
    assert (scopes + [top])[|scopes|] == top;
    InnermostIgnoresHigherScopes(name, scopes, [top], |scopes|);
  }

  /** Rebinding a name a scope already holds changes no lookup's answer. */
  lemma {:induction false} InnermostAfterRebind(name: string, scopes: seq<map<string, Symbol>>, position: nat,
                                                k: nat, key: string, value: Symbol)
    requires position <= |scopes| && k < |scopes|
    requires key in scopes[k]
    ensures Innermost(name, scopes[k := scopes[k][key := value]], position) == Innermost(name, scopes, position)
    decreases position
  {
    if position > 0 {
      InnermostAfterRebind(name, scopes, position - 1, k, key, value);
    }
  }

  /** The lookup as written: `reversed` is not exported by src/util.js, so calling it throws
      a TypeError; util's own `reversed` would throw too, pushing onto the number 0. Every
      `findScopeWithSymbol`, `hasSymbol` and `getSymbol` therefore throws. */
  function ReversedAsWritten<T>(list: seq<T>): Result<seq<T>, StoreError>
  {
    Err(TypeError)
  }

  function InnermostAsWritten(name: string, scopes: seq<map<string, Symbol>>, position: nat): Result<Option<int>, StoreError>
    requires position <= |scopes|
  {
    match ReversedAsWritten(scopes[..position])
    case Err(e) => Err(e)
    case Ok(reversedScopes) => Ok(IndexFromTop(FindBinding(name, reversedScopes), position))
  }

  /** The first binding scope, counted from the front. */
  function FindBinding(name: string, scopes: seq<map<string, Symbol>>): Option<int>
  {
    if scopes == [] then None
    else if name in scopes[0] then Some(0)
    else match FindBinding(name, scopes[1..]) case None => None case Some(i) => Some(i + 1)
  }

  /** Turns an index into the reversed visible scopes back into a scope index. */
  function IndexFromTop(found: Option<int>, position: int): Option<int>
  {
    match found case None => None case Some(i) => Some(position - i - 1)
  }

  /** What `reversed` is evidently meant to compute: the list back to front. */
  function Reversed<T>(list: seq<T>): (r: seq<T>)
    ensures |r| == |list|
    ensures forall i :: 0 <= i < |list| ==> r[i] == list[|list| - 1 - i]
  {
    if list == [] then [] else [list[|list| - 1]] + Reversed(list[..|list| - 1])
  }

  /** The lookup as intended: the first binding scope of the reversed visible scopes. */
  function InnermostAsIntended(name: string, scopes: seq<map<string, Symbol>>, position: nat): Option<int>
    requires position <= |scopes|
  {
    IndexFromTop(FindBinding(name, Reversed(scopes[..position])), position)
  }

  /** With a working `reversed`, the search finds exactly the innermost binding scope. */
  lemma {:induction false} InnermostAsIntendedAgrees(name: string, scopes: seq<map<string, Symbol>>, position: nat)
    requires position <= |scopes|
    ensures InnermostAsIntended(name, scopes, position) ==
            match Innermost(name, scopes, position) case None => None case Some(i) => Some(i as int)
    decreases position
  {
    if position > 0 {
      var visible := scopes[..position];
      assert visible[..position - 1] == scopes[..position - 1];
      assert Reversed(visible) == [scopes[position - 1]] + Reversed(scopes[..position - 1]);
      assert ([scopes[position - 1]] + Reversed(scopes[..position - 1]))[1..] == Reversed(scopes[..position - 1]);
      InnermostAsIntendedAgrees(name, scopes, position - 1);
    }
  }

  /** The search as written fails even for a name bound in the only visible scope. */
  lemma LookupAsWrittenThrows()
    ensures InnermostAsWritten("pi", [map["pi" := Constant(3.0)]], 1) == Err(TypeError)
    ensures Innermost("pi", [map["pi" := Constant(3.0)]], 1) == Some(0)
  {
  }

  // ---------------------------------------------------------------------------
  // The store

  class SymbolStore {
    var scopes: seq<Scope>
    var position: nat

    /** Only scopes that exist are visible. */
    ghost predicate Valid()
      reads this
    {
      position <= |scopes|
    }

    /** The bare constructor, once `position` is known to be in range. */
    constructor Init(scopes: seq<Scope>, position: nat)
      requires position <= |scopes|
      ensures this.scopes == scopes && this.position == position
      ensures Valid()
    {
      this.scopes := scopes;
      this.position := position;
    }

    /** `new SymbolStore(scopes, position)`: a missing or zero position is the number of
        scopes; any other must not exceed it, or the assertion throws. */
    static method Create(scopes: seq<Scope>, position: Option<nat>) returns (r: Result<SymbolStore, StoreError>)
      ensures r.Err? <==> position.Some? && position.value != 0 && position.value > |scopes|
      ensures r.Err? ==> r.error == Assertion(Util.FailedAssertion)
      ensures r.Ok? ==> fresh(r.value) && r.value.Valid() && r.value.scopes == scopes &&
                        r.value.position == if position.Some? && position.value != 0 then position.value else |scopes|
    {
      if position.Some? && position.value != 0 {
        var check := Util.Assert(position.value <= |scopes|);
        if check.Fail? {
          return Err(Assertion(check.error));
        }
        var store := new SymbolStore.Init(scopes, position.value);
        return Ok(store);
      }
      var store := new SymbolStore.Init(scopes, |scopes|);
      return Ok(store);
    }

    /** `SymbolStore.fromSymbolList(symbols)`: one scope holding the symbols, a later
        duplicate overwriting an earlier one. */
    static method FromSymbolList(symbols: seq<(string, Symbol)>) returns (r: SymbolStore)
      ensures fresh(r) && r.Valid()
      ensures |r.scopes| == 1 && fresh(r.scopes[0]) && r.position == 1
      ensures r.scopes[0].bindings == BindingsMap(symbols)
    {
      var bindings := FillMap(symbols);
      var scope := new Scope(bindings);
      r := new SymbolStore.Init([scope], 1);
    }

    /** `SymbolStore.storeWithPosition(store, position)`: the same scopes, another position. */
    static method StoreWithPosition(store: SymbolStore, position: nat) returns (r: Result<SymbolStore, StoreError>)
      ensures r.Err? <==> position > |store.scopes|
      ensures r.Ok? ==> fresh(r.value) && r.value.Valid() && r.value.scopes == store.scopes &&
                        r.value.position == if position != 0 then position else |store.scopes|
    {
      r := Create(store.scopes, Some(position));
    }

    /** `addScope(symbols)`: the full scope list (whatever the position) plus one new scope,
        all visible. */
    method AddScope(symbols: seq<(string, Symbol)>) returns (r: SymbolStore)
      ensures fresh(r) && r.Valid()
      ensures |r.scopes| == |scopes| + 1 && r.scopes[..|scopes|] == scopes && r.position == |scopes| + 1
      ensures fresh(r.scopes[|scopes|]) && r.scopes[|scopes|].bindings == BindingsMap(symbols)
    {
      var bindings := FillMap(symbols);
      var scope := new Scope(bindings);
      r := new SymbolStore.Init(scopes + [scope], |scopes| + 1);
    }

    /** `branch(position)`: the first `position` scopes (all of them if there are fewer), all
        visible. */
    method Branch(position: nat) returns (r: SymbolStore)
      ensures fresh(r) && r.Valid()
      ensures r.scopes == if position <= |scopes| then scopes[..position] else scopes
      ensures r.position == |r.scopes|
    {
      var kept := if position <= |scopes| then scopes[..position] else scopes;
      r := new SymbolStore.Init(kept, |kept|);
    }

    /** `findScopeWithSymbol(name)`, searching the visible scopes innermost first. */
    method FindScopeWithSymbol(name: string) returns (r: Option<(Scope, nat)>)
      requires Valid()
      ensures r.None? <==> Innermost(name, Contents(scopes), position).None?
      ensures r.Some? ==> r.value.1 == Innermost(name, Contents(scopes), position).value &&
                          r.value.1 < |scopes| && r.value.0 == scopes[r.value.1]
    {
      var k: nat := position;
      while k > 0
        invariant k <= position
        invariant Innermost(name, Contents(scopes), k) == Innermost(name, Contents(scopes), position)
      {
        if name in scopes[k - 1].bindings {
          return Some((scopes[k - 1], k - 1));
        }
        k := k - 1;
      }
      return None;
    }

    /** `hasSymbol(name)`. */
    method HasSymbol(name: string) returns (b: bool)
      requires Valid()
      ensures b <==> exists j :: 0 <= j < position && name in scopes[j].bindings
    {
      var found := FindScopeWithSymbol(name);
      InnermostIsHighestBinding(name, Contents(scopes), position);
      b := found.Some?;
    }

    /** `getSymbol(name)`: the binding of the innermost visible scope holding the name and
        that scope's index; reading from the missing scope of an absent name throws. */
    method GetSymbol(name: string) returns (r: Result<(Symbol, nat), StoreError>)
      requires Valid()
      ensures r.Err? <==> forall j :: 0 <= j < position ==> name !in scopes[j].bindings
      ensures r.Err? ==> r.error == TypeError
      ensures r.Ok? ==> var i := r.value.1;
                        i < position && name in scopes[i].bindings && r.value.0 == scopes[i].bindings[name] &&
                        forall j :: i < j < position ==> name !in scopes[j].bindings
    {
      var found := FindScopeWithSymbol(name);
      InnermostIsHighestBinding(name, Contents(scopes), position);
      if found.None? {
        return Err(TypeError);
      }
      var (scope, i) := found.value;
      return Ok((scope.bindings[name], i));
    }

    /** `setSymbol(position, name, value)`: the scope at `position` must exist and already
        bind the name; it is rebound in place, so this store and every other store holding
        that scope see the new value. The result holds the same scopes, all visible. */
    method SetSymbol(position: nat, name: string, value: Symbol) returns (r: Result<SymbolStore, StoreError>)
      modifies if position < |scopes| then {scopes[position]} else {}
      ensures r.Err? <==> position >= |scopes| || name !in old(scopes[position].bindings)
      ensures r.Err? ==> r.error == (if position >= |scopes| then TypeError else Assertion(Util.FailedAssertion))
      ensures r.Err? && position < |scopes| ==> unchanged(scopes[position])
      ensures r.Ok? ==> scopes[position].bindings == old(scopes[position].bindings)[name := value]
      ensures r.Ok? ==> fresh(r.value) && r.value.Valid() && r.value.scopes == scopes &&
                        r.value.position == |scopes|
    {
      if position >= |scopes| {
        return Err(TypeError);
      }
      var scope := scopes[position];
      var check := Util.Assert(name in scope.bindings);
      if check.Fail? {
        return Err(Assertion(check.error));
      }
      scope.bindings := scope.bindings[name := value];
      var newScopes := scopes[..position] + [scope] + scopes[position + 1..];
      assert newScopes == scopes;
      var store := new SymbolStore.Init(newScopes, |newScopes|);
      return Ok(store);
    }
  }

  /** After `setSymbol`, the contents are the old contents with one binding replaced, so
      every lookup finds the same scope as before. */
  lemma SetSymbolKeepsLookups(before: seq<map<string, Symbol>>, after: seq<map<string, Symbol>>,
                              k: nat, key: string, value: Symbol, name: string, position: nat)
    requires k < |before| && key in before[k] && position <= |before|
    requires after == before[k := before[k][key := value]]
    ensures position <= |after|
    ensures Innermost(name, after, position) == Innermost(name, before, position)
  {
    InnermostAfterRebind(name, before, position, k, key, value);
  }
}
