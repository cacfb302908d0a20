/** The structural type lattice of the lunae copy: a type is a name,
    parameters each with a variance, and an optional supertype. */
module TypeSystem {
  import opened Wrappers
  import opened Indentation

  datatype Variance = Covariant | Contravariant | Invariant

  /** Equality of types is structural over all three fields, as Python's
      `__eq__` compares them; datatype equality is exactly that. */
  datatype Type = Type(name: string, parameters: seq<Param>, supertype: Option<Type>)

  datatype Param = Param(typ: Type, variance: Variance)

  datatype TypeError = WrongParameterCount(expected: nat, got: nat)

  // ----- size, for termination -------------------------------------------------

  function Size(t: Type): (n: nat)
    ensures n >= 1
    decreases t, |t.parameters| + 1
  {
    1 + ParamsSize(t, 0) + match t.supertype case Some(st) => Size(st) case None => 0
  }

  /** Sizes of the parameter types from index `i` on. */
  function ParamsSize(t: Type, i: nat): nat
    decreases t, |t.parameters| - i
  {
    if i >= |t.parameters| then 0
    else
      assert t.parameters[i] in t.parameters;
      Size(t.parameters[i].typ) + ParamsSize(t, i + 1)
  }

  lemma {:induction false} ParamsSizeCovers(t: Type, i: nat, j: nat)
    requires i <= j < |t.parameters|
    ensures Size(t.parameters[j].typ) <= ParamsSize(t, i)
    decreases j - i
  {
    if i < j {
      ParamsSizeCovers(t, i + 1, j);
    }
  }

  /** A parameter type is smaller than the type holding it. */
  lemma ParamSmaller(t: Type, j: nat)
    requires j < |t.parameters|
    ensures Size(t.parameters[j].typ) < Size(t)
  {
    ParamsSizeCovers(t, 0, j);
  }

  // ----- subtyping ---------------------------------------------------------------

  /** `is_subtype_of` as the source has it: equal types are subtypes; types of
      one name with different parameter counts are not; types of one name with
      parameters are decided by the FIRST parameter pair alone, under the
      variance of `s`; otherwise the supertype chain of `s` is followed. */
  function IsSubtypeOf(s: Type, o: Type): (r: bool)
    ensures s == o ==> r
    ensures s.name == o.name && |s.parameters| != |o.parameters| ==> !r
    ensures r && s.name != o.name ==> s.supertype.Some? && IsSubtypeOf(s.supertype.value, o)
    decreases Size(s) + Size(o)
  {
    if s == o then true
    else if s.name == o.name && |s.parameters| != |o.parameters| then false
    else if s.name == o.name && |s.parameters| > 0 then
      ParamSmaller(s, 0);
      ParamSmaller(o, 0);
      var sp := s.parameters[0];
      var op := o.parameters[0];
      match sp.variance
      case Covariant => IsSubtypeOf(sp.typ, op.typ)
      case Contravariant => IsSubtypeOf(op.typ, sp.typ)
      case Invariant => sp.typ == op.typ
    else
      match s.supertype
      case Some(st) => IsSubtypeOf(st, o)
      case None => false
  }

  /** Whether parameter pair `i` of `s` and `o` agrees under `s`'s variance,
      judged by `IsSubtypeOfAllParams`. */
  predicate ParamAccepts(s: Type, o: Type, i: nat)
    requires i < |s.parameters| && i < |o.parameters|
    decreases Size(s) + Size(o), 0
  {
    ParamSmaller(s, i);
    ParamSmaller(o, i);
    var sp := s.parameters[i];
    var op := o.parameters[i];
    match sp.variance
    case Covariant => IsSubtypeOfAllParams(sp.typ, op.typ)
    case Contravariant => IsSubtypeOfAllParams(op.typ, sp.typ)
    case Invariant => sp.typ == op.typ
  }

  /** Pairs `i` and later all agree. */
  predicate ParamsFrom(s: Type, o: Type, i: nat)
    requires |s.parameters| == |o.parameters|
    decreases Size(s) + Size(o), 1, |s.parameters| - i
  {
    i >= |s.parameters| || (ParamAccepts(s, o, i) && ParamsFrom(s, o, i + 1))
  }

  /** The subtype check with every parameter pair examined: the early
      `return True` placed after the loop instead of inside it. */
  function IsSubtypeOfAllParams(s: Type, o: Type): (r: bool)
    ensures s == o ==> r
    ensures s.name == o.name && |s.parameters| != |o.parameters| ==> !r
    ensures r && s.name != o.name ==> s.supertype.Some? && IsSubtypeOfAllParams(s.supertype.value, o)
    decreases Size(s) + Size(o), 2
  {
    if s == o then true
    else if s.name == o.name && |s.parameters| != |o.parameters| then false
    else if s.name == o.name && |s.parameters| > 0 then ParamsFrom(s, o, 0)
    else
      match s.supertype
      case Some(st) => IsSubtypeOfAllParams(st, o)
      case None => false
  }

  // ----- subscription and display ---------------------------------------------

  /** `t[args]`: the same name, supertype and variances with the given
      parameter types. A single argument is passed as a one-element list. */
  function Subscript(t: Type, args: seq<Type>): (r: Result<Type, TypeError>)
    ensures r.Ok? <==> |args| == |t.parameters|
    ensures r.Err? ==> r.error == WrongParameterCount(|t.parameters|, |args|)
    ensures r.Ok? ==> r.value.name == t.name && r.value.supertype == t.supertype && |r.value.parameters| == |args|
    ensures r.Ok? ==> forall i :: 0 <= i < |args| ==>
      r.value.parameters[i] == Param(args[i], t.parameters[i].variance)
  {
    if |args| != |t.parameters| then Err(WrongParameterCount(|t.parameters|, |args|))
    else Ok(Type(t.name, seq(|args|, i requires 0 <= i < |args| => Param(args[i], t.parameters[i].variance)), t.supertype))
  }

  /** The parameter types of `t`, in order. */
  function ParamTypes(t: Type): (ps: seq<Type>)
    ensures |ps| == |t.parameters|
    ensures forall i :: 0 <= i < |ps| ==> ps[i] == t.parameters[i].typ
  {
    seq(|t.parameters|, i requires 0 <= i < |t.parameters| => t.parameters[i].typ)
  }

  /** `repr(t)`: the name, followed by the parameters' reprs in brackets when
      there are any. */
  function Repr(t: Type): (r: string)
    ensures |r| >= |t.name| && r[..|t.name|] == t.name
    ensures |t.parameters| == 0 ==> r == t.name
    ensures |t.parameters| > 0 ==> r == t.name + "[" + Join(", ", ParamReprs(t, 0)) + "]"
    decreases t, |t.parameters| + 1
  {
    if |t.parameters| == 0 then t.name
    else t.name + "[" + Join(", ", ParamReprs(t, 0)) + "]"
  }

  /** The reprs of the parameter types from index `i` on, in order. */
  function ParamReprs(t: Type, i: nat): (rs: seq<string>)
    ensures |rs| == if i < |t.parameters| then |t.parameters| - i else 0
    ensures forall k :: 0 <= k < |rs| ==> rs[k] == Repr(t.parameters[i + k].typ)
    decreases t, |t.parameters| - i
  {
    if i >= |t.parameters| then []
    else
      assert t.parameters[i] in t.parameters;
      [Repr(t.parameters[i].typ)] + ParamReprs(t, i + 1)
  }

  // ----- predefined types ----------------------------------------------------

  const AnyType := Type("any", [], None)
  const NoneType := Type("none", [], Some(AnyType))
  const StringType := Type("string", [], Some(AnyType))
  const FloatType := Type("float", [], Some(AnyType))
  const IntType := Type("int", [], Some(FloatType))
  const BoolType := Type("bool", [], Some(AnyType))
  const ListType := Type("list", [Param(AnyType, Covariant)], Some(AnyType))
  const DictType := Type("dict", [Param(AnyType, Invariant), Param(AnyType, Invariant)], Some(AnyType))
  const SetType := Type("set", [Param(AnyType, Covariant)], Some(AnyType))
  const OptionalType := Type("optional", [Param(AnyType, Covariant)], Some(AnyType))
  const FunctionType := Type("function", [], Some(AnyType))

  const Predefined: seq<Type> := [AnyType, NoneType, StringType, FloatType, IntType, BoolType,
    ListType, DictType, SetType, OptionalType, FunctionType]
}
