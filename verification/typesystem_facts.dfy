/** Properties of the type lattice: the shape of the subtype check, the
    supertype chain as a reference for it, subscription, display, and the
    first-pair-only discrepancy against the all-pairs check. */
module TypeFacts {
  import opened Wrappers
  import opened TypeSystem
  import opened Indentation

  // ----- the shape of the check ---------------------------------------------

  /** Every type is a subtype of itself. */
  lemma Reflexive(t: Type)
    ensures IsSubtypeOf(t, t) && IsSubtypeOfAllParams(t, t)
  {
  }

  /** Types of one name but different parameter counts are unrelated, whatever
      their supertypes. */
  lemma ParameterCountMismatch(s: Type, o: Type)
    requires s.name == o.name && |s.parameters| != |o.parameters|
    ensures !IsSubtypeOf(s, o) && !IsSubtypeOfAllParams(s, o)
  {
  }

  /** Same name, same non-zero count: the first pair under `s`'s variance
      decides, and neither later pairs nor supertypes are looked at. */
  lemma FirstPairDecides(s: Type, o: Type)
    requires s != o && s.name == o.name && |s.parameters| == |o.parameters| > 0
    ensures IsSubtypeOf(s, o) <==>
      match s.parameters[0].variance
      case Covariant => IsSubtypeOf(s.parameters[0].typ, o.parameters[0].typ)
      case Contravariant => IsSubtypeOf(o.parameters[0].typ, s.parameters[0].typ)
      case Invariant => s.parameters[0].typ == o.parameters[0].typ
  {
  }

  /** Distinct types of one name and no parameters are related only through
      the supertype chain of `s`: the parameter loop has nothing to decide. */
  lemma ParameterlessSameName(s: Type, o: Type)
    requires s != o && s.name == o.name && |s.parameters| == 0 && |o.parameters| == 0
    ensures IsSubtypeOf(s, o) <==> s.supertype.Some? && IsSubtypeOf(s.supertype.value, o)
  {
  }

  /** The all-pairs check accepts exactly when every pair agrees. */
  lemma AllParamsChecked(s: Type, o: Type)
    requires s != o && s.name == o.name && |s.parameters| == |o.parameters| > 0
    ensures IsSubtypeOfAllParams(s, o) <==> forall i :: 0 <= i < |s.parameters| ==> ParamAccepts(s, o, i)
  {
    ParamsFromAll(s, o, 0);
  }

  lemma {:induction false} ParamsFromAll(s: Type, o: Type, i: nat)
    requires |s.parameters| == |o.parameters|
    ensures ParamsFrom(s, o, i) ==> forall j :: i <= j < |s.parameters| ==> ParamAccepts(s, o, j)
    ensures !ParamsFrom(s, o, i) ==> exists j :: i <= j < |s.parameters| && !ParamAccepts(s, o, j)
    decreases |s.parameters| - i
  {
    if i < |s.parameters| {
      ParamsFromAll(s, o, i + 1);
      if !ParamAccepts(s, o, i) {
        assert i <= i < |s.parameters| && !ParamAccepts(s, o, i);
      }
    }
  }

  /** The all-pairs check is the stricter one: whatever it accepts, the
      first-pair check accepts too. */
  lemma {:induction false} AllParamsStricter(s: Type, o: Type)
    requires IsSubtypeOfAllParams(s, o)
    ensures IsSubtypeOf(s, o)
    decreases Size(s) + Size(o)
  {
    if s != o {
      if s.name == o.name && |s.parameters| > 0 {
        assert ParamAccepts(s, o, 0);
        ParamSmaller(s, 0);
        ParamSmaller(o, 0);
        var sp, op := s.parameters[0], o.parameters[0];
        match sp.variance
        case Covariant => AllParamsStricter(sp.typ, op.typ);
        case Contravariant => AllParamsStricter(op.typ, sp.typ);
        case Invariant =>
      } else if s.name != o.name || |s.parameters| == 0 {
        AllParamsStricter(s.supertype.value, o);
      }
    }
  }

  // ----- the supertype chain ----------------------------------------------------

  /** `t`, its supertype, that type's supertype, and so on. */
  function Ancestors(t: Type): (ts: seq<Type>)
    ensures |ts| >= 1 && ts[0] == t
    decreases t
  {
    match t.supertype
    case None => [t]
    case Some(st) => [t] + Ancestors(st)
  }

  /** No ancestor of `s` but `o` itself carries `o`'s name. */
  predicate NameOnlyAt(s: Type, o: Type) {
    forall i :: 0 <= i < |Ancestors(s)| ==> Ancestors(s)[i] == o || Ancestors(s)[i].name != o.name
  }

  /** When the name of `o` occurs nowhere else on the chain of `s`, subtyping is
      membership in the chain, for both checks. */
  lemma {:induction false} SubtypeIsAncestor(s: Type, o: Type)
    requires NameOnlyAt(s, o)
    ensures IsSubtypeOf(s, o) <==> o in Ancestors(s)
    ensures IsSubtypeOfAllParams(s, o) <==> o in Ancestors(s)
    decreases s
  {
    if s != o {
      assert s.name != o.name by {
        assert Ancestors(s)[0] == s;
      }
      match s.supertype
      case None =>
        assert Ancestors(s) == [s];
      case Some(st) =>
        assert Ancestors(s) == [s] + Ancestors(st);
        assert NameOnlyAt(st, o) by {
          forall i | 0 <= i < |Ancestors(st)|
            ensures Ancestors(st)[i] == o || Ancestors(st)[i].name != o.name
          {
            assert Ancestors(st)[i] == Ancestors(s)[i + 1];
          }
        }
        SubtypeIsAncestor(st, o);
    }
  }

  /** Every predefined type is below `any`, and `int` is below `float`. */
  lemma PredefinedBelowAny()
    ensures forall i :: 0 <= i < |Predefined| ==> IsSubtypeOf(Predefined[i], AnyType)
    ensures IsSubtypeOf(IntType, FloatType) && !IsSubtypeOf(FloatType, IntType)
  {
    assert IsSubtypeOf(FloatType, AnyType);
    assert IsSubtypeOf(IntType, AnyType);
  }

  /** The predefined types, in the order of the module: their names and the
      supertype each one hangs from. */
  lemma PredefinedNames()
    ensures |Predefined| == 11
    ensures seq(11, i requires 0 <= i < 11 => Predefined[i].name) ==
      ["any", "none", "string", "float", "int", "bool", "list", "dict", "set", "optional", "function"]
    ensures Predefined[0].supertype.None? && IntType.supertype == Some(FloatType)
    ensures forall i :: 1 <= i < |Predefined| && i != 4 ==> Predefined[i].supertype == Some(AnyType)
  {
  }

  // ----- variance ----------------------------------------------------------------

  const IntList := Type("list", [Param(IntType, Covariant)], Some(AnyType))
  const FloatList := Type("list", [Param(FloatType, Covariant)], Some(AnyType))
  const IntIntDict := Type("dict", [Param(IntType, Invariant), Param(IntType, Invariant)], Some(AnyType))
  const IntFloatDict := Type("dict", [Param(IntType, Invariant), Param(FloatType, Invariant)], Some(AnyType))
  const FloatIntDict := Type("dict", [Param(FloatType, Invariant), Param(IntType, Invariant)], Some(AnyType))

  /** The subscripted generic types used below. */
  lemma Subscripted()
    ensures Subscript(ListType, [IntType]) == Ok(IntList)
    ensures Subscript(ListType, [FloatType]) == Ok(FloatList)
    ensures Subscript(DictType, [IntType, IntType]) == Ok(IntIntDict)
    ensures Subscript(DictType, [IntType, FloatType]) == Ok(IntFloatDict)
    ensures Subscript(DictType, [FloatType, IntType]) == Ok(FloatIntDict)
  {
    SubscriptWith(ListType, [IntType], IntList);
    SubscriptWith(ListType, [FloatType], FloatList);
    SubscriptWith(DictType, [IntType, IntType], IntIntDict);
    SubscriptWith(DictType, [IntType, FloatType], IntFloatDict);
    SubscriptWith(DictType, [FloatType, IntType], FloatIntDict);
  }

  lemma SubscriptWith(t: Type, args: seq<Type>, r: Type)
    requires |args| == |t.parameters| == |r.parameters|
    requires r.name == t.name && r.supertype == t.supertype
    requires forall i :: 0 <= i < |args| ==> r.parameters[i] == Param(args[i], t.parameters[i].variance)
    ensures Subscript(t, args) == Ok(r)
  {
    assert Subscript(t, args).value.parameters == r.parameters;
  }

  /** Lists are covariant; dictionaries are invariant in their first key. */
  lemma Variances()
    ensures IsSubtypeOf(IntList, FloatList) && !IsSubtypeOf(FloatList, IntList)
    ensures !IsSubtypeOf(IntIntDict, FloatIntDict)
  {
    assert IsSubtypeOf(IntType, FloatType);
    assert !IsSubtypeOf(FloatType, IntType);
  }

  /** The check as written accepts `dict[int, int]` as a `dict[int, float]`:
      only the first (equal) pair is compared. The all-pairs check rejects it. */
  lemma FirstPairOnly()
    ensures IsSubtypeOf(IntIntDict, IntFloatDict)
    ensures !IsSubtypeOfAllParams(IntIntDict, IntFloatDict)
  {
    assert IntType != FloatType;
    assert IntIntDict != IntFloatDict;
    assert !ParamAccepts(IntIntDict, IntFloatDict, 1);
    ParamsFromAll(IntIntDict, IntFloatDict, 0);
    assert IsSubtypeOfAllParams(IntIntDict, IntFloatDict) == ParamsFrom(IntIntDict, IntFloatDict, 0);
  }

  // ----- subscription and display ----------------------------------------------

  /** Subscribing a type with its own parameter types gives it back. */
  lemma SubscriptOwnParams(t: Type)
    ensures Subscript(t, ParamTypes(t)) == Ok(t)
  {
    var r := Subscript(t, ParamTypes(t));
    assert r.value.parameters == t.parameters;
  }

  /** Subscribing again replaces the earlier arguments: only the name, the
      supertype and the variances of the original are kept. */
  lemma Resubscript(t: Type, xs: seq<Type>, ys: seq<Type>)
    requires Subscript(t, xs).Ok?
    ensures Subscript(Subscript(t, xs).value, ys) == Subscript(t, ys)
  {
    if |ys| == |t.parameters| {
      assert Subscript(Subscript(t, xs).value, ys).value.parameters == Subscript(t, ys).value.parameters;
    }
  }

  /** A subscripted type displays as its name over the reprs of the given
      arguments, in order, separated by a comma and a space. */
  lemma ReprSubscript(t: Type, args: seq<Type>)
    requires |args| == |t.parameters| > 0
    ensures Repr(Subscript(t, args).value) ==
      t.name + "[" + Join(", ", seq(|args|, i requires 0 <= i < |args| => Repr(args[i]))) + "]"
  {
    var u := Subscript(t, args).value;
    assert ParamReprs(u, 0) == seq(|args|, i requires 0 <= i < |args| => Repr(args[i]));
  }

  /** A parameterless type displays as its name ... */
  lemma TypeReprPlain()
    ensures Repr(IntType) == "int"
  {
  }

  /** ... a generic one lists its parameter types in brackets ... */
  lemma TypeReprList()
    ensures Repr(IntList) == "list[int]"
  {
    assert ParamReprs(IntList, 0) == ["int"];
  }

  /** ... separated by a comma and a space. */
  lemma TypeReprDict()
    ensures Repr(IntFloatDict) == "dict[int, float]"
  {
    assert ParamReprs(IntFloatDict, 1) == ["float"];
    assert ParamReprs(IntFloatDict, 0) == ["int", "float"];
    assert ["int", "float"][1..] == ["float"];
    assert Join(", ", ["int", "float"]) == "int, float";
  }
}
