/** The untyped environment of the top-level and luma interpreters: a frame
    of the scope arena per environment. `set` and `define` are the same
    operation, and both write the environment's own frame. */
module Environment {
  import opened Wrappers
  import opened Scopes

  datatype NameError = NameError(name: string)

  /** `get`: the value in the nearest frame of the chain binding `name`. */
  function Get<V>(a: seq<Frame<V>>, env: nat, name: string): (r: Result<V, NameError>)
    requires WellFormed(a) && env < |a|
    ensures r.Ok? ==> exists k :: 0 <= k < |Chain(a, env)| &&
                        name in a[Chain(a, env)[k]].vars && r.value == a[Chain(a, env)[k]].vars[name] &&
                        forall k2 :: 0 <= k2 < k ==> name !in a[Chain(a, env)[k2]].vars
    ensures r.Err? ==> r.error == NameError(name) &&
                       forall k :: 0 <= k < |Chain(a, env)| ==> name !in a[Chain(a, env)[k]].vars
  {
    FindNone(a, env, name);
    match Find(a, env, name)
    case Some(j) =>
      FindFirst(a, env, name);
      Ok(a[j].vars[name])
    case None => Err(NameError(name))
  }

  /** `set(name, value)`, and equally `define(name, value)`: binds `name` in
      the environment's own frame, whatever its ancestors hold. */
  function Set<V>(a: seq<Frame<V>>, env: nat, name: string, v: V): (a2: seq<Frame<V>>)
    requires WellFormed(a) && env < |a|
    ensures WellFormed(a2) && |a2| == |a|
    ensures Get(a2, env, name) == Ok(v)
    ensures a2[env].vars.Keys == a[env].vars.Keys + {name}
    ensures forall i :: 0 <= i < |a| && i != env ==> a2[i] == a[i]
  {
    Write(a, env, name, v)
  }

  /** A new environment is empty: its lookups are its parent's, and fail
      without one. */
  lemma NewEnvironment<V>(a: seq<Frame<V>>, parent: Option<nat>, name: string)
    requires WellFormed(a) && (parent.Some? ==> parent.value < |a|)
    ensures var (a2, env) := NewFrame(a, parent);
      Get(a2, env, name) == if parent.Some? then Get(a, parent.value, name) else Err(NameError(name))
  {
    var (a2, env) := NewFrame(a, parent);
    if parent.Some? {
      FindPrefix(a, a2, parent.value, name);
    }
  }

  /** Appending frames does not change the lookups of existing ones. */
  lemma {:induction false} FindPrefix<V>(a: seq<Frame<V>>, a2: seq<Frame<V>>, env: nat, name: string)
    requires WellFormed(a) && WellFormed(a2) && env < |a| <= |a2| && a2[..|a|] == a
    ensures Find(a2, env, name) == Find(a, env, name)
    ensures Find(a, env, name).Some? ==> a2[Find(a, env, name).value] == a[Find(a, env, name).value]
    decreases env
  {
    assert a2[env] == a2[..|a|][env];
    match a[env].parent
    case None =>
    case Some(p) => FindPrefix(a, a2, p, name);
  }

  /** Setting a name leaves every other name, seen from any environment,
      as it was. */
  lemma SetOtherName<V>(a: seq<Frame<V>>, env: nat, name: string, v: V, from: nat, other: string)
    requires WellFormed(a) && env < |a| && from < |a| && other != name
    ensures Get(Set(a, env, name, v), from, other) == Get(a, from, other)
  {
    FindAfterWrite(a, env, name, v, from, other);
  }

  /** Setting never reaches an ancestor: a binding of the same name in an
      outer environment is shadowed, not replaced, and every environment whose
      chain does not pass through `env` still sees its old value. */
  lemma SetShadows<V>(a: seq<Frame<V>>, env: nat, name: string, v: V, from: nat)
    requires WellFormed(a) && env < |a| && from < |a|
    requires env !in Chain(a, from)
    ensures Get(Set(a, env, name, v), from, name) == Get(a, from, name)
  {
    FindAfterWrite(a, env, name, v, from, name);
  }

  /** In particular the parent of `env` keeps its binding. */
  lemma SetKeepsParent<V>(a: seq<Frame<V>>, env: nat, name: string, v: V)
    requires WellFormed(a) && env < |a| && a[env].parent.Some?
    ensures Get(Set(a, env, name, v), a[env].parent.value, name) == Get(a, a[env].parent.value, name)
  {
    var p := a[env].parent.value;
    AncestorChain(a, env, p);
    SetShadows(a, env, name, v, p);
  }
}
