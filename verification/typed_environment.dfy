/** The typed environment of the lunae copy: frames map names to bindings; a
    binding holds an immutable cell (a value and its type) and a mutability
    flag. Names are introduced by `define` only; `set` replaces the cell of
    an existing, mutable binding wherever it lives along the chain. */
module TypedEnvironment {
  import opened Wrappers
  import opened Scopes
  import opened TypeSystem

  datatype Cell<V> = Cell(value: V, typ: Type)

  datatype Binding<V> = Binding(cell: Cell<V>, mutable: bool)

  /** `Binding(cell)`: mutable unless stated otherwise. */
  function NewBinding<V>(cell: Cell<V>): (b: Binding<V>)
    ensures b.cell == cell && b.mutable
  {
    Binding(cell, true)
  }

  /** AlreadyDefined and Undefined are Python NameErrors, Immutable a
      TypeError. */
  datatype EnvError = AlreadyDefined(name: string) | Undefined(name: string) | Immutable(name: string)

  type Arena<V> = seq<Frame<Binding<V>>>

  /** `define`: a new name in this scope; refused when this very scope has it,
      allowed when only an ancestor does. */
  function Define<V>(a: Arena<V>, env: nat, name: string, b: Binding<V>): (r: Result<Arena<V>, EnvError>)
    requires WellFormed(a) && env < |a|
    ensures r.Err? <==> name in a[env].vars
    ensures r.Err? ==> r.error == AlreadyDefined(name)
    ensures r.Ok? ==> WellFormed(r.value) && |r.value| == |a|
    ensures r.Ok? ==> r.value[env].vars == a[env].vars[name := b]
    ensures r.Ok? ==> forall i :: 0 <= i < |a| && i != env ==> r.value[i] == a[i]
  {
    if name in a[env].vars then Err(AlreadyDefined(name))
    else Ok(Write(a, env, name, b))
  }

  /** `resolve`: the binding in the nearest frame of the chain having the name. */
  function Resolve<V>(a: Arena<V>, env: nat, name: string): (r: Result<Binding<V>, EnvError>)
    requires WellFormed(a) && env < |a|
    ensures r.Ok? ==> exists k :: 0 <= k < |Chain(a, env)| &&
                        name in a[Chain(a, env)[k]].vars && r.value == a[Chain(a, env)[k]].vars[name] &&
                        forall k2 :: 0 <= k2 < k ==> name !in a[Chain(a, env)[k2]].vars
    ensures r.Err? ==> r.error == Undefined(name) &&
                       forall k :: 0 <= k < |Chain(a, env)| ==> name !in a[Chain(a, env)[k]].vars
  {
    FindNone(a, env, name);
    match Find(a, env, name)
    case Some(j) =>
      FindFirst(a, env, name);
      Ok(a[j].vars[name])
    case None => Err(Undefined(name))
  }

  /** `set`: replaces the cell of the resolved binding, in whichever frame
      holds it. The new cell's type is not compared with the old one. */
  function Set<V>(a: Arena<V>, env: nat, name: string, cell: Cell<V>): (r: Result<Arena<V>, EnvError>)
    requires WellFormed(a) && env < |a|
    ensures Resolve(a, env, name).Err? ==> r == Err(Undefined(name))
    ensures Resolve(a, env, name).Ok? && !Resolve(a, env, name).value.mutable ==> r == Err(Immutable(name))
    ensures r.Ok? <==> Resolve(a, env, name).Ok? && Resolve(a, env, name).value.mutable
    ensures r.Ok? ==> WellFormed(r.value) && |r.value| == |a|
    ensures r.Ok? ==> Resolve(r.value, env, name) == Ok(Binding(cell, true))
    ensures r.Ok? ==> forall i :: 0 <= i < |a| ==> r.value[i].vars.Keys == a[i].vars.Keys
  {
    match Find(a, env, name)
    case None => Err(Undefined(name))
    case Some(j) =>
      var b := a[j].vars[name];
      if !b.mutable then Err(Immutable(name))
      else
        var a2 := Write(a, j, name, b.(cell := cell));
        FindSameKeys(a, a2, env, name);
        Ok(a2)
  }

  /** `get`: the cell of the resolved binding. */
  function Get<V>(a: Arena<V>, env: nat, name: string): (r: Result<Cell<V>, EnvError>)
    requires WellFormed(a) && env < |a|
    ensures r.Ok? <==> Resolve(a, env, name).Ok?
    ensures r.Ok? ==> r.value == Resolve(a, env, name).value.cell
    ensures r.Err? ==> r.error == Undefined(name)
  {
    match Resolve(a, env, name)
    case Ok(b) => Ok(b.cell)
    case Err(e) => Err(e)
  }

  /** A defined name resolves to its binding in the defining scope. */
  lemma DefineThenResolve<V>(a: Arena<V>, env: nat, name: string, b: Binding<V>)
    requires WellFormed(a) && env < |a| && name !in a[env].vars
    ensures Define(a, env, name, b).Ok?
    ensures Resolve(Define(a, env, name, b).value, env, name) == Ok(b)
    ensures Get(Define(a, env, name, b).value, env, name) == Ok(b.cell)
  {
  }

  /** Defining in an inner scope shadows: every scope whose chain does not pass
      through `env`, the ancestors included, resolves the name as before. */
  lemma DefineKeepsOthers<V>(a: Arena<V>, env: nat, name: string, b: Binding<V>, from: nat)
    requires WellFormed(a) && env < |a| && from < |a| && name !in a[env].vars
    requires env !in Chain(a, from)
    ensures Resolve(Define(a, env, name, b).value, from, name) == Resolve(a, from, name)
  {
    FindAfterWrite(a, env, name, b, from, name);
  }

  /** After a successful set, get answers the new cell. */
  lemma GetAfterSet<V>(a: Arena<V>, env: nat, name: string, cell: Cell<V>)
    requires WellFormed(a) && env < |a| && Set(a, env, name, cell).Ok?
    ensures Get(Set(a, env, name, cell).value, env, name) == Ok(cell)
  {
  }

  /** A set changes no other name, seen from any scope. */
  lemma SetOtherName<V>(a: Arena<V>, env: nat, name: string, cell: Cell<V>, from: nat, other: string)
    requires WellFormed(a) && env < |a| && from < |a| && other != name
    requires Set(a, env, name, cell).Ok?
    ensures Resolve(Set(a, env, name, cell).value, from, other) == Resolve(a, from, other)
  {
    var j := Find(a, env, name).value;
    var b := a[j].vars[name];
    FindAfterWrite(a, j, name, b.(cell := cell), from, other);
  }
}
