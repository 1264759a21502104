/**
 * The scope-chained variable environment the checker threads through a
 * stanza. Its implementation (`VariableMap` in src/variables.rs) is not part
 * of this model; what follows is the contract the checker relies on, stated
 * as an assumption: `add` declares in the innermost scope and fails on a
 * duplicate there, `set` updates the binding found first along the chain and
 * fails when there is none or it is immutable, `get` searches the chain.
 */
module Variables {
  import opened Quantifiers
  import opened Results
  import opened Names

  /** The scoping violations the environment reports. */
  datatype VariableError = AlreadyDefined | UndefinedVariable | CannotAssignImmutableVariable

  /** What the checker records for a variable: its cardinality and whether it may be reassigned. */
  datatype Binding = Binding(quantifier: Quantifier, mutable: bool)

  type Scope = map<Name, Binding>

  /** A scope chain, innermost scope first; the last scope is the stanza's root. */
  type Env = seq<Scope>

  /** The root environment created for every stanza. */
  function Root(): (env: Env)
    ensures |env| == 1 && env[0] == map[]
  {
    [map[]]
  }

  /** A fresh child scope whose lookups fall through to `env`. */
  function Child(env: Env): (child: Env)
    ensures |child| == |env| + 1 && child[0] == map[] && child[1..] == env
  {
    [map[]] + env
  }

  /** The index of the innermost scope that declares `name`, if any. */
  function FindScope(env: Env, name: Name): (r: Option<nat>)
    ensures r.None? <==> forall i :: 0 <= i < |env| ==> name !in env[i]
    ensures r.Some? ==> r.value < |env| && name in env[r.value]
    ensures r.Some? ==> forall j :: 0 <= j < r.value ==> name !in env[j]
  {
    if env == [] then None
    else if name in env[0] then Some(0)
    else
      match FindScope(env[1..], name)
      case None => None
      case Some(i) => Some(i + 1)
  }

  /** `get`: the binding of `name` seen from the innermost scope. */
  function Lookup(env: Env, name: Name): (r: Option<Binding>)
    ensures r.None? <==> forall i :: 0 <= i < |env| ==> name !in env[i]
    ensures r.Some? ==> exists i :: 0 <= i < |env| && name in env[i] && env[i][name] == r.value
                                    && forall j :: 0 <= j < i ==> name !in env[j]
  {
    match FindScope(env, name)
    case None => None
    case Some(i) => Some(env[i][name])
  }

  /** `add`: declare `name` in the innermost scope. */
  function Add(env: Env, name: Name, quantifier: Quantifier, mutable: bool): (r: Result<Env, VariableError>)
    requires |env| > 0
    ensures r.Err? <==> name in env[0]
    ensures r.Err? ==> r.error == AlreadyDefined
    ensures r.Ok? ==> Lookup(r.value, name) == Some(Binding(quantifier, mutable))
    ensures r.Ok? ==> forall n :: n != name ==> Lookup(r.value, n) == Lookup(env, n)
    ensures r.Ok? ==> Frames(env, r.value, {}, {name})
  {
    if name in env[0] then Err(AlreadyDefined)
    else Ok([env[0][name := Binding(quantifier, mutable)]] + env[1..])
  }

  /** `set`: overwrite the cardinality of the innermost binding of `name`, walking the chain. */
  function Set(env: Env, name: Name, quantifier: Quantifier): (r: Result<Env, VariableError>)
    ensures Lookup(env, name).None? ==> r == Err(UndefinedVariable)
    ensures Lookup(env, name).Some? && !Lookup(env, name).value.mutable ==> r == Err(CannotAssignImmutableVariable)
    ensures r.Ok? ==> Lookup(env, name).Some? && Lookup(env, name).value.mutable
    ensures r.Ok? ==>
              var i := FindScope(env, name).value;
              r.value == env[i := env[i][name := Binding(quantifier, true)]]
  {
    if env == [] then Err(UndefinedVariable)
    else if name in env[0] then
      if env[0][name].mutable then Ok([env[0][name := Binding(quantifier, true)]] + env[1..])
      else Err(CannotAssignImmutableVariable)
    else
      var rest :- Set(env[1..], name, quantifier);
      Ok([env[0]] + rest)
  }

  /**
   * How one scope may evolve while a statement is checked: it gains exactly
   * `declared`, keeps every mutability flag, and only bindings named in
   * `written` and mutable may change.
   */
  ghost predicate ScopeFrames(s: Scope, s': Scope, written: set<Name>, declared: set<Name>) {
    && s'.Keys == s.Keys + declared
    && (forall n :: n in s ==> s'[n].mutable == s[n].mutable)
    && (forall n :: n in s && (n !in written || !s[n].mutable) ==> s'[n] == s[n])
  }

  /**
   * How a whole chain may evolve: same depth, only the innermost scope gains
   * names (exactly `declared`), and every scope obeys ScopeFrames.
   */
  ghost predicate Frames(env: Env, env': Env, written: set<Name>, declared: set<Name>) {
    && |env'| == |env|
    && (forall i :: 0 <= i < |env| ==> ScopeFrames(env[i], env'[i], written, if i == 0 then declared else {}))
  }

  lemma FramesRefl(env: Env)
    ensures Frames(env, env, {}, {})
  {
  }

  /** Checking two statements one after the other composes their frames. */
  lemma FramesTrans(e0: Env, e1: Env, e2: Env, w1: set<Name>, d1: set<Name>, w2: set<Name>, d2: set<Name>)
    requires Frames(e0, e1, w1, d1) && Frames(e1, e2, w2, d2)
    ensures Frames(e0, e2, w1 + w2, d1 + d2)
  {
    forall i | 0 <= i < |e0|
      ensures ScopeFrames(e0[i], e2[i], w1 + w2, if i == 0 then d1 + d2 else {})
    {
      assert ScopeFrames(e0[i], e1[i], w1, if i == 0 then d1 else {});
      assert ScopeFrames(e1[i], e2[i], w2, if i == 0 then d2 else {});
    }
  }

  /**
   * Discarding the innermost scope: whatever was declared there vanishes,
   * and the enclosing chain gains no name at all.
   */
  lemma FramesPop(env: Env, env': Env, written: set<Name>, declared: set<Name>)
    requires |env| > 0 && Frames(env, env', written, declared)
    ensures Frames(env[1..], env'[1..], written, {})
  {
    forall i | 0 <= i < |env| - 1
      ensures ScopeFrames(env[1..][i], env'[1..][i], written, {})
    {
      assert ScopeFrames(env[i + 1], env'[i + 1], written, {});
    }
  }

  /** A frame with nothing written and nothing declared leaves the chain as it was. */
  lemma FramesNothing(env: Env, env': Env)
    requires Frames(env, env', {}, {})
    ensures env' == env
  {
    forall i | 0 <= i < |env|
      ensures env'[i] == env[i]
    {
      assert ScopeFrames(env[i], env'[i], {}, {});
    }
  }

  /** Lookup only depends on which names each scope declares. */
  lemma {:induction false} FindScopeSameKeys(env: Env, env': Env, name: Name)
    requires |env'| == |env|
    requires forall i :: 0 <= i < |env| ==> env'[i].Keys == env[i].Keys
    ensures FindScope(env', name) == FindScope(env, name)
  {
    if env != [] && name !in env[0] {
      FindScopeSameKeys(env[1..], env'[1..], name);
    }
  }

  /** Rebinding `name` in the scope that declares it innermost. */
  lemma RebindEffect(env: Env, name: Name, b: Binding)
    requires FindScope(env, name).Some?
    ensures var i := FindScope(env, name).value;
            var env' := env[i := env[i][name := b]];
            && Lookup(env', name) == Some(b)
            && (forall n :: n != name ==> Lookup(env', n) == Lookup(env, n))
  {
    var i := FindScope(env, name).value;
    var env' := env[i := env[i][name := b]];
    assert forall j :: 0 <= j < |env| ==> env'[j].Keys == env[j].Keys;
    FindScopeSameKeys(env, env', name);
    forall n | n != name
      ensures Lookup(env', n) == Lookup(env, n)
    {
      FindScopeSameKeys(env, env', n);
    }
  }

  /**
   * After a successful `set`, the name reads back with the new cardinality,
   * every other name reads as before, and the chain keeps its shape.
   */
  lemma SetEffect(env: Env, name: Name, quantifier: Quantifier, env': Env)
    requires Set(env, name, quantifier) == Ok(env')
    ensures Lookup(env', name) == Some(Binding(quantifier, true))
    ensures forall n :: n != name ==> Lookup(env', n) == Lookup(env, n)
    ensures Frames(env, env', {name}, {})
  {
    var i := FindScope(env, name).value;
    assert env[i][name].mutable;
    RebindEffect(env, name, Binding(quantifier, true));
    forall j | 0 <= j < |env|
      ensures ScopeFrames(env[j], env'[j], {name}, {})
    {
      if j == i {
        assert env'[j] == env[i][name := Binding(quantifier, true)];
      } else {
        assert env'[j] == env[j];
      }
    }
  }
}
