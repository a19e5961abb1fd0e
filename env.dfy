/**
 * The scope chain of glox (glox/env.go).
 *
 * An environment maps names to values and may point to an enclosing environment.
 * Lookups and assignments search outwards along the chain; declarations only
 * touch the innermost scope.
 *
 * The chain is seen through `Scopes()`, the maps from this environment outwards.
 * `Lookup` and `UpdateInnermost` say on such a sequence of maps what a lookup and
 * an assignment mean; `Get` and `Set` are proved to agree with them, and the
 * lemmas below state shadowing and "nothing else changes" on the sequence.
 */
module Env {

  datatype LookupResult<V> = Found(value: V) | Missing

  datatype EnvError = Redeclaration(name: string) | UnknownVar(name: string)

  /** An operation's error, or `Done`: Go's `error`, which is `nil` on success. */
  datatype Outcome = Done | Failure(err: EnvError)

  // ---------------------------------------------------------------------------
  // Scopes as a sequence of maps, innermost first

  /** The value of `name` in the first scope that binds it. */
  function Lookup<V>(scopes: seq<map<string, V>>, name: string): (r: LookupResult<V>)
    ensures r.Found? ==> exists i | 0 <= i < |scopes| :: name in scopes[i] && scopes[i][name] == r.value
  {
    if scopes == [] then Missing
    else if name in scopes[0] then Found(scopes[0][name])
    else Lookup(scopes[1..], name)
  }

  /** `scopes` with `name` set to `val` in the first scope that binds it, if any. */
  function UpdateInnermost<V>(scopes: seq<map<string, V>>, name: string, val: V): (s': seq<map<string, V>>)
    ensures |s'| == |scopes|
  {
    if scopes == [] then []
    else if name in scopes[0] then [scopes[0][name := val]] + scopes[1..]
    else [scopes[0]] + UpdateInnermost(scopes[1..], name, val)
  }

  /** The lookup finds the binding in the first scope that has one. */
  lemma {:induction false} LookupInnermost<V>(scopes: seq<map<string, V>>, name: string, i: nat)
    requires i < |scopes| && name in scopes[i]
    requires forall j | 0 <= j < i :: name !in scopes[j]
    ensures Lookup(scopes, name) == Found(scopes[i][name])
  {
    if i > 0 {
      LookupInnermost(scopes[1..], name, i - 1);
    }
  }

  /** The lookup fails exactly when no scope binds the name. */
  lemma {:induction false} LookupMissing<V>(scopes: seq<map<string, V>>, name: string)
    ensures Lookup(scopes, name) == Missing <==> forall i | 0 <= i < |scopes| :: name !in scopes[i]
  {
    if scopes != [] {
      LookupMissing(scopes[1..], name);
      if name !in scopes[0] {
        assert forall i | 1 <= i < |scopes| :: scopes[i] == scopes[1..][i - 1];
      }
    }
  }

  /**
   * Assigning changes exactly one scope, the first that binds the name, and only
   * that name's value in it; with no such scope nothing changes at all.
   */
  lemma {:induction false} UpdateInnermostSpec<V>(scopes: seq<map<string, V>>, name: string, val: V)
    ensures var s' := UpdateInnermost(scopes, name, val);
            && (forall i | 0 <= i < |scopes| :: s'[i].Keys == scopes[i].Keys)
            && (forall i | 0 <= i < |scopes| :: forall n | n in scopes[i] && n != name :: s'[i][n] == scopes[i][n])
            && (Lookup(scopes, name).Missing? ==> s' == scopes)
  {
    if scopes != [] && name !in scopes[0] {
      UpdateInnermostSpec(scopes[1..], name, val);
      var s' := UpdateInnermost(scopes, name, val);
      assert forall i | 1 <= i < |scopes| :: s'[i] == UpdateInnermost(scopes[1..], name, val)[i - 1];
    }
  }

  /** After assigning, looking the name up gives the new value if it was bound, and nothing otherwise. */
  lemma {:induction false} LookupAfterUpdate<V>(scopes: seq<map<string, V>>, name: string, val: V)
    ensures Lookup(UpdateInnermost(scopes, name, val), name) ==
              if Lookup(scopes, name).Found? then Found(val) else Missing
  {
    if scopes != [] && name !in scopes[0] {
      LookupAfterUpdate(scopes[1..], name, val);
      assert UpdateInnermost(scopes, name, val)[1..] == UpdateInnermost(scopes[1..], name, val);
    }
  }

  /** Assigning one name does not change what any other name looks up to. */
  lemma {:induction false} LookupOtherAfterUpdate<V>(scopes: seq<map<string, V>>, name: string, val: V, other: string)
    requires other != name
    ensures Lookup(UpdateInnermost(scopes, name, val), other) == Lookup(scopes, other)
  {
    if scopes != [] {
      var s' := UpdateInnermost(scopes, name, val);
      if name in scopes[0] {
        assert s'[1..] == scopes[1..];
      } else {
        LookupOtherAfterUpdate(scopes[1..], name, val, other);
        assert s'[1..] == UpdateInnermost(scopes[1..], name, val);
      }
    }
  }

  /** A name the front scope does not bind is looked up in the rest of the chain. */
  lemma LookupFallsThrough<V>(inner: map<string, V>, outer: seq<map<string, V>>, name: string)
    requires name !in inner
    ensures Lookup([inner] + outer, name) == Lookup(outer, name)
  {
    assert ([inner] + outer)[1..] == outer;
  }

  // ---------------------------------------------------------------------------
  // The environment chain

  class Environment<V> {
    const enclosing: Environment?<V>
    var vars: map<string, V>
    /** The environments further out along the chain. */
    ghost const Chain: set<Environment<V>>
    /** How many environments lie further out. */
    ghost const depth: nat

    /** The chain is finite and does not loop back to this environment. */
    ghost predicate Valid()
      decreases depth
    {
      && this !in Chain
      && (enclosing == null ==> Chain == {} && depth == 0)
      && (enclosing != null ==>
            && Chain == {enclosing} + enclosing.Chain
            && depth == enclosing.depth + 1
            && enclosing.Valid())
    }

    /** The maps of this environment and all enclosing ones, innermost first. */
    ghost function Scopes(): (s: seq<map<string, V>>)
      requires Valid()
      reads this, Chain
      ensures |s| == depth + 1 && s[0] == vars
      decreases depth
    {
      [vars] + if enclosing == null then [] else enclosing.Scopes()
    }

    /** NewEnvironment */
    constructor (enclosing: Environment?<V>)
      requires enclosing != null ==> enclosing.Valid()
      ensures Valid() && this.enclosing == enclosing && vars == map[]
      ensures Scopes() == [map[]] + if enclosing == null then [] else enclosing.Scopes()
    {
      this.enclosing := enclosing;
      vars := map[];
      Chain := if enclosing == null then {} else {enclosing} + enclosing.Chain;
      depth := if enclosing == null then 0 else enclosing.depth + 1;
    }

    /** `Get`: the value in the innermost environment that binds `name`. */
    function Get(name: string): (r: LookupResult<V>)
      requires Valid()
      reads this, Chain
      ensures r == Lookup(Scopes(), name)
      decreases depth
    {
      if name in vars then Found(vars[name])
      else if enclosing == null then Missing
      else
        LookupFallsThrough(vars, enclosing.Scopes(), name);
        enclosing.Get(name)
    }

    /** `Declare`: bind `name` here, unless this environment binds it already. */
    method Declare(name: string, val: V) returns (r: Outcome)
      requires Valid()
      modifies this
      ensures Valid()
      ensures name in old(vars) ==> r == Failure(Redeclaration(name)) && vars == old(vars)
      ensures name !in old(vars) ==> r == Done && vars == old(vars)[name := val]
      ensures Scopes() == [vars] + old(Scopes())[1..]
    {
      if name in vars {
        return Failure(Redeclaration(name));
      }
      vars := vars[name := val];
      r := Done;
    }

    /** `Set`: assign `name` in the innermost environment that binds it. */
    method Set(name: string, val: V) returns (r: Outcome)
      requires Valid()
      modifies this, Chain
      ensures Valid()
      ensures r == (if Lookup(old(Scopes()), name).Found? then Done else Failure(UnknownVar(name)))
      ensures Scopes() == UpdateInnermost(old(Scopes()), name, val)
      decreases depth
    {
      if name in vars {
        vars := vars[name := val];
        return Done;
      }
      if enclosing == null {
        return Failure(UnknownVar(name));
      }
      LookupFallsThrough(vars, enclosing.Scopes(), name);
      r := enclosing.Set(name, val);
    }
  }

  // ---------------------------------------------------------------------------
  // What declaring and assigning do to lookups

  /**
   * A successful `Declare` makes `name` look up to the new value, even when an
   * enclosing environment binds it too, leaves every enclosing environment as it
   * was and every other name as it looked up before.
   */
  lemma DeclareEffect<V>(before: seq<map<string, V>>, after: seq<map<string, V>>, name: string, val: V)
    requires before != [] && name !in before[0]
    requires after == [before[0][name := val]] + before[1..]
    ensures Lookup(after, name) == Found(val)
    ensures after[1..] == before[1..]
    ensures forall n | n != name :: Lookup(after, n) == Lookup(before, n)
  {
    forall n | n != name ensures Lookup(after, n) == Lookup(before, n) {
      assert after[1..] == before[1..];
    }
  }

  /**
   * After `Set`, the name looks up to the new value when it was bound somewhere,
   * outer bindings it shadows keep their values, no scope gains or loses a name,
   * and every other name looks up as before; an unknown name changes nothing.
   */
  lemma SetEffect<V>(before: seq<map<string, V>>, name: string, val: V)
    ensures var after := UpdateInnermost(before, name, val);
            && Lookup(after, name) == (if Lookup(before, name).Found? then Found(val) else Missing)
            && (forall i | 0 <= i < |before| :: after[i].Keys == before[i].Keys)
            && (forall n | n != name :: Lookup(after, n) == Lookup(before, n))
            && (Lookup(before, name).Missing? ==> after == before)
  {
    LookupAfterUpdate(before, name, val);
    UpdateInnermostSpec(before, name, val);
    forall n | n != name ensures Lookup(UpdateInnermost(before, name, val), n) == Lookup(before, n) {
      LookupOtherAfterUpdate(before, name, val, n);
    }
  }

  /** Bindings behind the innermost one for `name` keep their values across `Set`. */
  lemma {:induction false} SetKeepsShadowed<V>(before: seq<map<string, V>>, name: string, val: V, i: nat, j: nat)
    requires i < j < |before| && name in before[i] && name in before[j]
    ensures UpdateInnermost(before, name, val)[j] == before[j]
  {
    if name !in before[0] {
      SetKeepsShadowed(before[1..], name, val, i - 1, j - 1);
    }
  }
}
