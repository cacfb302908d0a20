/** Scope chains, as an arena: every environment is a frame of a sequence,
    and a frame's parent is an earlier frame. Both environment classes of the
    language look a name up the same way: the nearest frame along the parent
    chain that binds it. */
module Scopes {
  import opened Wrappers

  datatype Frame<V> = Frame(vars: map<string, V>, parent: Option<nat>)

  /** Parents come before their children, so every chain ends. */
  predicate WellFormed<V>(a: seq<Frame<V>>) {
    forall i :: 0 <= i < |a| ==> a[i].parent.None? || a[i].parent.value < i
  }

  /** The frames a lookup from `env` visits: `env`, its parent, and so on up to
      the root. */
  function Chain<V>(a: seq<Frame<V>>, env: nat): (c: seq<nat>)
    requires WellFormed(a) && env < |a|
    ensures |c| >= 1 && c[0] == env
    ensures forall k :: 0 <= k < |c| ==> c[k] <= env
    ensures forall k :: 0 < k < |c| ==> c[k] < c[k - 1]
    ensures forall k :: 0 <= k < |c| - 1 ==> a[c[k]].parent == Some(c[k + 1])
    ensures a[c[|c| - 1]].parent.None?
    decreases env
  {
    match a[env].parent
    case None => [env]
    case Some(p) => [env] + Chain(a, p)
  }

  /** The frame answering a lookup of `name` from `env`, if any. */
  function Find<V>(a: seq<Frame<V>>, env: nat, name: string): (j: Option<nat>)
    requires WellFormed(a) && env < |a|
    ensures j.Some? ==> j.value <= env && name in a[j.value].vars
    decreases env
  {
    if name in a[env].vars then Some(env)
    else match a[env].parent
      case None => None
      case Some(p) => Find(a, p, name)
  }

  /** A new, empty frame under `parent`. */
  function NewFrame<V>(a: seq<Frame<V>>, parent: Option<nat>): (res: (seq<Frame<V>>, nat))
    requires parent.Some? ==> parent.value < |a|
    ensures res.1 == |a| && |res.0| == |a| + 1
    ensures res.0[..|a|] == a
    ensures res.0[res.1].vars == map[] && res.0[res.1].parent == parent
    ensures WellFormed(a) ==> WellFormed(res.0)
  {
    (a + [Frame(map[], parent)], |a|)
  }

  /** Replaces the binding of `name` in frame `env` alone. */
  function Write<V>(a: seq<Frame<V>>, env: nat, name: string, v: V): (a2: seq<Frame<V>>)
    requires env < |a|
    ensures |a2| == |a|
    ensures a2[env].vars == a[env].vars[name := v] && a2[env].parent == a[env].parent
    ensures forall i :: 0 <= i < |a| && i != env ==> a2[i] == a[i]
    ensures WellFormed(a) ==> WellFormed(a2)
  {
    a[env := a[env].(vars := a[env].vars[name := v])]
  }

  /** Find answers None exactly when no frame of the chain binds the name. */
  lemma {:induction false} FindNone<V>(a: seq<Frame<V>>, env: nat, name: string)
    requires WellFormed(a) && env < |a|
    ensures Find(a, env, name).None? ==>
      forall k :: 0 <= k < |Chain(a, env)| ==> name !in a[Chain(a, env)[k]].vars
    ensures Find(a, env, name).Some? ==>
      exists k :: 0 <= k < |Chain(a, env)| && name in a[Chain(a, env)[k]].vars
    decreases env
  {
    if Find(a, env, name).Some? {
      FindFirst(a, env, name);
    } else if a[env].parent.Some? {
      var p := a[env].parent.value;
      FindNone(a, p, name);
      var c := Chain(a, env);
      var cp := Chain(a, p);
      assert c == [env] + cp;
      forall k | 0 < k < |c|
        ensures name !in a[c[k]].vars
      {
        assert c[k] == cp[k - 1];
      }
    }
  }

  /** Prepending a frame without the name keeps "no earlier frame binds it",
      one position further on. */
  lemma NoneBeforeShift<V>(a: seq<Frame<V>>, c: seq<nat>, cp: seq<nat>, k: nat, name: string)
    requires |c| == |cp| + 1 && c[1..] == cp && k < |cp|
    requires forall i :: 0 <= i < |c| ==> c[i] < |a|
    requires name !in a[c[0]].vars
    requires forall k2 :: 0 <= k2 < k ==> name !in a[cp[k2]].vars
    ensures forall k2 :: 0 <= k2 < k + 1 ==> name !in a[c[k2]].vars
  {
    forall k2 | 0 < k2 < k + 1
      ensures name !in a[c[k2]].vars
    {
      assert c[k2] == cp[k2 - 1];
    }
  }

  /** Otherwise it answers with the first frame of the chain that binds it. */
  lemma {:induction false} FindFirst<V>(a: seq<Frame<V>>, env: nat, name: string)
    requires WellFormed(a) && env < |a|
    requires Find(a, env, name).Some?
    ensures exists k :: 0 <= k < |Chain(a, env)| && Chain(a, env)[k] == Find(a, env, name).value &&
                   forall k2 :: 0 <= k2 < k ==> name !in a[Chain(a, env)[k2]].vars
    decreases env
  {
    var c := Chain(a, env);
    if name in a[env].vars {
      assert c[0] == Find(a, env, name).value;
    } else {
      var p := a[env].parent.value;
      FindFirst(a, p, name);
      var cp := Chain(a, p);
      assert c == [env] + cp;
      assert Find(a, env, name) == Find(a, p, name);
      var k :| 0 <= k < |cp| && cp[k] == Find(a, p, name).value &&
               forall k2 :: 0 <= k2 < k ==> name !in a[cp[k2]].vars;
      NoneBeforeShift(a, c, cp, k, name);
      assert 0 <= k + 1 < |c| && c[k + 1] == Find(a, env, name).value;
    }
  }

  /** A lookup only sees the frames of its chain: writing a frame outside the
      chain, or another name, does not change its answer. */
  lemma {:induction false} FindAfterWrite<V>(a: seq<Frame<V>>, env: nat, name: string, v: V, from: nat, other: string)
    requires WellFormed(a) && env < |a| && from < |a|
    requires other != name || env !in Chain(a, from)
    ensures Find(Write(a, env, name, v), from, other) == Find(a, from, other)
    ensures Find(a, from, other).Some? ==>
      Write(a, env, name, v)[Find(a, from, other).value].vars[other] == a[Find(a, from, other).value].vars[other]
    decreases from
  {
    var a2 := Write(a, env, name, v);
    if from != env {
      assert a2[from] == a[from];
    }
    match a[from].parent
    case None =>
    case Some(p) =>
      assert Chain(a, from) == [from] + Chain(a, p);
      FindAfterWrite(a, env, name, v, p, other);
  }

  /** An ancestor's chain never reaches back to a later frame. */
  lemma AncestorChain<V>(a: seq<Frame<V>>, env: nat, from: nat)
    requires WellFormed(a) && env < |a| && from < env
    ensures env !in Chain(a, from)
  {
  }

  /** Lookups depend only on which names each frame binds and on the parent
      links, not on the values bound. */
  lemma {:induction false} FindSameKeys<V>(a: seq<Frame<V>>, a2: seq<Frame<V>>, env: nat, name: string)
    requires WellFormed(a) && env < |a| && |a2| == |a|
    requires forall i :: 0 <= i < |a| ==> a2[i].parent == a[i].parent && a2[i].vars.Keys == a[i].vars.Keys
    ensures WellFormed(a2)
    ensures Find(a2, env, name) == Find(a, env, name)
    decreases env
  {
    assert name in a2[env].vars <==> name in a[env].vars;
    match a[env].parent
    case None =>
    case Some(p) => FindSameKeys(a, a2, p, name);
  }
}
