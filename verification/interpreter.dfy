/** The tree-walking evaluator of the top-level and luma copies. Environments
    are frames of a scope arena threaded through evaluation; `fuel` bounds the
    depth of evaluation, so that loops and recursion that do not end yield
    OutOfFuel instead of diverging. Float conversion of numerals, the ten
    operator functions and Python truthiness come from the host. */
module Interpreter {
  import opened Wrappers
  import opened Ast
  import opened Scopes
  import Environment

  datatype Value =
    | NoneValue
    | BoolValue(b: bool)
    | NumberValue(x: real)
    | StringValue(s: string)
    | ListValue(items: seq<Value>)
    | Builtin(op: string)
    | Closure(name: string, params: seq<string>, body: Node, env: nat)

  /** What the evaluator takes from Python itself: `float()` of a numeral,
      the operator lambdas applied to their arguments, and truthiness. */
  datatype Host = Host(
    numeral: string -> Value,
    builtin: (string, seq<Value>) -> Result<Value, string>,
    truthy: Value -> bool)

  /** Errors raised during evaluation. DanglingScope stands for a closure
      whose defining frame is not in the arena, which Python's references
      rule out. */
  datatype EvalError =
    | NameError(name: string)
    | NotCallable(name: string)
    | NotIterable
    | HostError(message: string)
    | DanglingScope
    | OutOfFuel

  type Arena = seq<Frame<Value>>

  /** The names of the ten operator functions. */
  const Operators: set<string> := {"add", "sub", "mul", "div", "mod", "is", "less", "more", "neg", "not"}

  /** `create_global_env`: one frame without parent, binding every operator
      name to its builtin. */
  function CreateGlobalEnv(): (a: Arena)
    ensures |a| == 1 && WellFormed(a) && a[0].parent.None?
    ensures a[0].vars.Keys == Operators
    ensures forall op :: op in Operators ==> a[0].vars[op] == Builtin(op)
  {
    [Frame(map op | op in Operators :: Builtin(op), None)]
  }

  /** The interpreter: an arena and the index of its global environment. */
  datatype Interp = Interp(arena: Arena, global: nat)

  /** `Interpreter(global_env)`: the supplied global environment, or a fresh
      one (the luma constructor; the top-level one always builds a fresh one). */
  function NewInterp(given: Option<Interp>): (i: Interp)
    ensures given.Some? ==> i == given.value
    ensures given.None? ==> i.global == 0 && i.arena == CreateGlobalEnv()
  {
    match given
    case Some(g) => g
    case None => Interp(CreateGlobalEnv(), 0)
  }

  /** `a2` is `a` after evaluating in frame `env`: frames may be appended,
      the own table of `env` may gain names or change values, and nothing
      else changes. */
  ghost predicate Keeps(a: Arena, a2: Arena, env: nat) {
    WellFormed(a2) && |a| <= |a2| &&
    (forall i :: 0 <= i < |a| && i != env ==> a2[i] == a[i]) &&
    (env < |a| ==> a2[env].parent == a[env].parent && a[env].vars.Keys <= a2[env].vars.Keys)
  }

  /** What a `for` loop iterates over: the items of a list, or the
      one-character strings of a string. */
  function Items(v: Value): (r: Result<seq<Value>, EvalError>)
    ensures v.ListValue? ==> r == Ok(v.items)
    ensures v.StringValue? ==> r.Ok? && |r.value| == |v.s|
    ensures v.StringValue? ==> forall i :: 0 <= i < |v.s| ==> r.value[i] == StringValue([v.s[i]])
    ensures !v.ListValue? && !v.StringValue? ==> r == Err(NotIterable)
  {
    match v
    case ListValue(xs) => Ok(xs)
    case StringValue(s) => Ok(seq(|s|, i requires 0 <= i < |s| => StringValue([s[i]])))
    case _ => Err(NotIterable)
  }

  /** `eval(node, env)`. */
  function Eval(h: Host, n: Node, env: nat, a: Arena, fuel: nat): (r: Result<(Value, Arena), EvalError>)
    requires WellFormed(a) && env < |a|
    ensures r.Ok? ==> Keeps(a, r.value.1, env)
    decreases fuel, 0
  {
    if fuel == 0 then Err(OutOfFuel)
    else
      var f := fuel - 1;
      match n
      case Number(literal) => Ok((h.numeral(literal), a))
      case Str(text) => Ok((StringValue(text), a))
      case Var(name) =>
        (match Environment.Get(a, env, name)
         case Ok(v) => Ok((v, a))
         case Err(_) => Err(NameError(name)))
      case Assign(name, value) =>
        var (v, a1) :- Eval(h, value, env, a, f);
        Ok((v, Environment.Set(a1, env, name, v)))
      case FuncCall(func, args) =>
        (match Environment.Get(a, env, func)
         case Err(_) => Err(NameError(func))
         case Ok(callee) =>
           var (vs, a1) :- EvalArgs(h, args, env, a, f);
           Call(h, func, callee, vs, a1, f))
      case IfExpr(cond, thenBranch, elseBranch) =>
        var (c, a1) :- Eval(h, cond, env, a, f);
        if h.truthy(c) then Eval(h, thenBranch, env, a1, f)
        else
          (match elseBranch
           case Some(e) => Eval(h, e, env, a1, f)
           case None => Ok((NoneValue, a1)))
      case WhileExpr(cond, body) => Loop(h, cond, body, env, a, NoneValue, f)
      case ForExpr(variable, iterable, body) =>
        var (lst, a1) :- Eval(h, iterable, env, a, f);
        var items :- Items(lst);
        var (results, a2) :- EvalFor(h, variable, items, body, env, a1, f);
        Ok((ListValue(results), a2))
      case FuncDef(name, params, body) =>
        var closure := Closure(name, params, body, env);
        Ok((closure, Environment.Set(a, env, name, closure)))
      case Block(statements) => EvalBlock(h, statements, env, a, NoneValue, f)
  }

  /** The arguments of a call, left to right, in the caller's environment. */
  function EvalArgs(h: Host, args: seq<Node>, env: nat, a: Arena, fuel: nat): (r: Result<(seq<Value>, Arena), EvalError>)
    requires WellFormed(a) && env < |a|
    ensures r.Ok? ==> Keeps(a, r.value.1, env) && |r.value.0| == |args|
    decreases fuel, |args|
  {
    if |args| == 0 then Ok(([], a))
    else
      var (v, a1) :- Eval(h, args[0], env, a, fuel);
      var (vs, a2) :- EvalArgs(h, args[1..], env, a1, fuel);
      Ok(([v] + vs, a2))
  }

  /** `fn(*args)`: a builtin goes to the host; a closure runs its body in a
      fresh child of its defining environment, with `zip(params, args)`
      bound there. */
  function Call(h: Host, func: string, callee: Value, args: seq<Value>, a: Arena, fuel: nat): (r: Result<(Value, Arena), EvalError>)
    requires WellFormed(a)
    ensures r.Ok? ==> Keeps(a, r.value.1, |a|)
    decreases fuel, 1
  {
    match callee
    case Builtin(op) =>
      (match h.builtin(op, args)
       case Ok(v) => Ok((v, a))
       case Err(m) => Err(HostError(m)))
    case Closure(_, params, body, defining) =>
      if defining >= |a| then Err(DanglingScope)
      else
        var (a1, local) := NewFrame(a, Some(defining));
        var a2 := BindParams(a1, local, params, args);
        Eval(h, body, local, a2, fuel)
    case _ => Err(NotCallable(func))
  }

  /** Binds the parameters to the arguments pairwise in the local frame,
      stopping at the shorter of the two lists; a later parameter of the
      same name overrides an earlier one. */
  function BindParams(a: Arena, local: nat, params: seq<string>, args: seq<Value>): (a2: Arena)
    requires WellFormed(a) && local < |a|
    ensures WellFormed(a2) && |a2| == |a|
    ensures forall i :: 0 <= i < |a| && i != local ==> a2[i] == a[i]
    ensures a2[local].parent == a[local].parent
    decreases |params|
  {
    if |params| == 0 || |args| == 0 then a
    else BindParams(Environment.Set(a, local, params[0], args[0]), local, params[1..], args[1..])
  }

  /** The rounds of `while`: evaluate the condition; when it is falsy,
      answer the value of the last body run (`last` before the first);
      otherwise run the body and go round again with its value. */
  function Loop(h: Host, cond: Node, body: Node, env: nat, a: Arena, last: Value, fuel: nat): (r: Result<(Value, Arena), EvalError>)
    requires WellFormed(a) && env < |a|
    ensures r.Ok? ==> Keeps(a, r.value.1, env)
    decreases fuel, 1
  {
    var (c, a1) :- Eval(h, cond, env, a, fuel);
    if !h.truthy(c) then Ok((last, a1))
    else
      var (v, a2) :- Eval(h, body, env, a1, fuel);
      if fuel == 0 then Err(OutOfFuel)
      else Loop(h, cond, body, env, a2, v, fuel - 1)
  }

  /** The items of a `for` loop: the variable is set in the current
      environment, then the body evaluated; one result per item. */
  function EvalFor(h: Host, variable: string, items: seq<Value>, body: Node, env: nat, a: Arena, fuel: nat): (r: Result<(seq<Value>, Arena), EvalError>)
    requires WellFormed(a) && env < |a|
    ensures r.Ok? ==> Keeps(a, r.value.1, env) && |r.value.0| == |items|
    decreases fuel, |items|
  {
    if |items| == 0 then Ok(([], a))
    else
      var a1 := Environment.Set(a, env, variable, items[0]);
      var (v, a2) :- Eval(h, body, env, a1, fuel);
      var (rest, a3) :- EvalFor(h, variable, items[1..], body, env, a2, fuel);
      Ok(([v] + rest, a3))
  }

  /** The statements of a block in order, in the same environment; the value
      of the last one, or `last` when there are none left. */
  function EvalBlock(h: Host, statements: seq<Node>, env: nat, a: Arena, last: Value, fuel: nat): (r: Result<(Value, Arena), EvalError>)
    requires WellFormed(a) && env < |a|
    ensures r.Ok? ==> Keeps(a, r.value.1, env)
    decreases fuel, |statements|
  {
    if |statements| == 0 then Ok((last, a))
    else
      var (v, a1) :- Eval(h, statements[0], env, a, fuel);
      EvalBlock(h, statements[1..], env, a1, v, fuel)
  }

  /** `eval(node)` with the environment defaulting to the global one. */
  function EvalIn(h: Host, interp: Interp, n: Node, env: Option<nat>, fuel: nat): (r: Result<(Value, Arena), EvalError>)
    requires WellFormed(interp.arena) && interp.global < |interp.arena|
    requires env.Some? ==> env.value < |interp.arena|
    ensures r.Ok? ==> Keeps(interp.arena, r.value.1, env.GetOr(interp.global))
  {
    Eval(h, n, env.GetOr(interp.global), interp.arena, fuel)
  }

}
