/** Properties of the evaluator: what each construct evaluates to, the order
    of effects, how blocks compose, how calls bind their parameters, and that
    a finished evaluation does not depend on the fuel it was given. */
module InterpreterFacts {
  import opened Wrappers
  import opened Ast
  import opened Scopes
  import Environment
  import opened Interpreter

  // ----- the global environment ----------------------------------------------------

  /** In the global environment exactly the ten operator names are bound,
      each to its own builtin. */
  lemma GlobalLookups(name: string)
    ensures name in Operators ==> Environment.Get(CreateGlobalEnv(), 0, name) == Ok(Builtin(name))
    ensures name !in Operators ==> Environment.Get(CreateGlobalEnv(), 0, name) == Err(Environment.NameError(name))
  {
    var a := CreateGlobalEnv();
    assert Chain(a, 0) == [0];
  }

  // ----- values and variables ---------------------------------------------------

  /** Literals evaluate to their payload and change nothing; a variable reads
      the nearest binding of its chain, or fails with NameError. */
  lemma Leaves(h: Host, env: nat, a: Arena, fuel: nat, literal: string, name: string)
    requires WellFormed(a) && env < |a| && fuel >= 1
    ensures Eval(h, Number(literal), env, a, fuel) == Ok((h.numeral(literal), a))
    ensures Eval(h, Str(literal), env, a, fuel) == Ok((StringValue(literal), a))
    ensures Environment.Get(a, env, name).Ok? ==>
      Eval(h, Var(name), env, a, fuel) == Ok((Environment.Get(a, env, name).value, a))
    ensures Environment.Get(a, env, name).Err? ==> Eval(h, Var(name), env, a, fuel) == Err(NameError(name))
  {
  }

  /** An assignment evaluates its value, binds it in the current environment,
      and answers it. */
  lemma AssignBinds(h: Host, name: string, value: Node, env: nat, a: Arena, fuel: nat)
    requires WellFormed(a) && env < |a| && fuel >= 1
    requires Eval(h, Assign(name, value), env, a, fuel).Ok?
    ensures var (v, a2) := Eval(h, Assign(name, value), env, a, fuel).value;
      Eval(h, value, env, a, fuel - 1).Ok? && v == Eval(h, value, env, a, fuel - 1).value.0 &&
      Environment.Get(a2, env, name) == Ok(v)
  {
  }

  /** A function definition binds a closure over the current environment
      under its name, and answers the closure. */
  lemma FuncDefBinds(h: Host, name: string, params: seq<string>, body: Node, env: nat, a: Arena, fuel: nat)
    requires WellFormed(a) && env < |a| && fuel >= 1
    ensures var r := Eval(h, FuncDef(name, params, body), env, a, fuel);
      r.Ok? && r.value.0 == Closure(name, params, body, env) &&
      Environment.Get(r.value.1, env, name) == Ok(Closure(name, params, body, env))
  {
  }

  // ----- calls ---------------------------------------------------------------------

  /** The callee is looked up before any argument is evaluated: an unbound
      callee fails with NameError even when an argument would fail too. */
  lemma CalleeFirst(h: Host, func: string, args: seq<Node>, env: nat, a: Arena, fuel: nat)
    requires WellFormed(a) && env < |a| && fuel >= 1
    requires Environment.Get(a, env, func).Err?
    ensures Eval(h, FuncCall(func, args), env, a, fuel) == Err(NameError(func))
  {
  }

  /** `vs` in front of the values of a successful evaluation. */
  function Prepend(vs: seq<Value>, r: Result<(seq<Value>, Arena), EvalError>): Result<(seq<Value>, Arena), EvalError> {
    match r
    case Err(e) => Err(e)
    case Ok((ws, a2)) => Ok((vs + ws, a2))
  }

  lemma PrependTwice(v: Value, vs: seq<Value>, r: Result<(seq<Value>, Arena), EvalError>)
    ensures Prepend([v], Prepend(vs, r)) == Prepend([v] + vs, r)
  {
    if r.Ok? {
      assert [v] + (vs + r.value.0) == ([v] + vs) + r.value.0;
    }
  }

  /** Arguments are evaluated left to right: those of `xs + ys` are those of
      `xs`, then those of `ys` from the arena `xs` left. */
  lemma {:induction false} ArgsInOrder(h: Host, xs: seq<Node>, ys: seq<Node>, env: nat, a: Arena, fuel: nat)
    requires WellFormed(a) && env < |a|
    ensures EvalArgs(h, xs + ys, env, a, fuel) ==
      match EvalArgs(h, xs, env, a, fuel)
      case Err(e) => Err(e)
      case Ok((vs, a1)) => Prepend(vs, EvalArgs(h, ys, env, a1, fuel))
    decreases |xs|
  {
    if |xs| == 0 {
      assert xs + ys == ys;
      match EvalArgs(h, ys, env, a, fuel)
      case Err(e) =>
      case Ok((ws, a2)) =>
        assert [] + ws == ws;
    } else {
      assert (xs + ys)[0] == xs[0];
      assert (xs + ys)[1..] == xs[1..] + ys;
      match Eval(h, xs[0], env, a, fuel)
      case Err(e) =>
      case Ok((v, a1)) =>
        assert EvalArgs(h, xs + ys, env, a, fuel) == Prepend([v], EvalArgs(h, xs[1..] + ys, env, a1, fuel));
        assert EvalArgs(h, xs, env, a, fuel) == Prepend([v], EvalArgs(h, xs[1..], env, a1, fuel));
        ArgsInOrder(h, xs[1..], ys, env, a1, fuel);
        match EvalArgs(h, xs[1..], env, a1, fuel)
        case Err(e) =>
        case Ok((vs, a2)) =>
          PrependTwice(v, vs, EvalArgs(h, ys, env, a2, fuel));
    }
  }

  /** The bindings `zip(params, args)` makes: pairs up to the shorter list,
      a later pair overriding an earlier one of the same name. */
  function ZipMap(params: seq<string>, args: seq<Value>): map<string, Value>
    decreases |params|
  {
    if |params| == 0 || |args| == 0 then map[]
    else map[params[0] := args[0]] + ZipMap(params[1..], args[1..])
  }

  /** The local frame of a call holds exactly its own earlier bindings
      updated by `zip(params, args)`. */
  lemma {:induction false} BindParamsZip(a: Arena, local: nat, params: seq<string>, args: seq<Value>)
    requires WellFormed(a) && local < |a|
    ensures BindParams(a, local, params, args)[local].vars == a[local].vars + ZipMap(params, args)
    decreases |params|
  {
    if |params| > 0 && |args| > 0 {
      var a1 := Environment.Set(a, local, params[0], args[0]);
      BindParamsZip(a1, local, params[1..], args[1..]);
      assert a1[local].vars == a[local].vars[params[0] := args[0]];
      UpdateThenUnion(a[local].vars, params[0], args[0], ZipMap(params[1..], args[1..]));
    }
  }

  /** Updating a map and then overriding it with `z` is overriding it with
      the update followed by `z`. */
  lemma UpdateThenUnion<K, V>(m: map<K, V>, k: K, v: V, z: map<K, V>)
    ensures m[k := v] + z == m + (map[k := v] + z)
  {
  }

  /** Extra arguments are ignored and missing parameters stay unbound. */
  lemma {:induction false} ZipMapKeys(params: seq<string>, args: seq<Value>)
    ensures ZipMap(params, args).Keys == set i | 0 <= i < |params| && i < |args| :: params[i]
    decreases |params|
  {
    if |params| > 0 && |args| > 0 {
      ZipMapKeys(params[1..], args[1..]);
      var rest := set i | 0 <= i < |params[1..]| && i < |args[1..]| :: params[1..][i];
      var all := set i | 0 <= i < |params| && i < |args| :: params[i];
      forall x | x in all
        ensures x in {params[0]} + rest
      {
        var i :| 0 <= i < |params| && i < |args| && params[i] == x;
        if i > 0 {
          assert params[1..][i - 1] == x;
        }
      }
      forall x | x in rest
        ensures x in all
      {
        var i :| 0 <= i < |params[1..]| && i < |args[1..]| && params[1..][i] == x;
        assert params[i + 1] == x;
      }
      assert all == {params[0]} + rest;
    }
  }

  /** With distinct parameter names every bound parameter holds its own
      argument. */
  lemma {:induction false} ZipMapValues(params: seq<string>, args: seq<Value>, i: nat)
    requires forall j, k :: 0 <= j < k < |params| ==> params[j] != params[k]
    requires i < |params| && i < |args|
    ensures params[i] in ZipMap(params, args) && ZipMap(params, args)[params[i]] == args[i]
    decreases i
  {
    if i == 0 {
      ZipMapKeys(params[1..], args[1..]);
    } else {
      ZipMapValues(params[1..], args[1..], i - 1);
      assert params[1..][i - 1] == params[i];
    }
  }

  /** Calling a closure runs its body in a new frame whose parent is the
      defining environment and which holds `zip(params, args)`. */
  lemma CallFrame(h: Host, func: string, name: string, params: seq<string>, body: Node, defining: nat, args: seq<Value>, a: Arena, fuel: nat)
    requires WellFormed(a) && defining < |a|
    ensures var a1 := a + [Frame(map[], Some(defining))];
      WellFormed(a1) &&
      BindParams(a1, |a|, params, args)[|a|] == Frame(ZipMap(params, args), Some(defining)) &&
      Call(h, func, Closure(name, params, body, defining), args, a, fuel) ==
        Eval(h, body, |a|, BindParams(a1, |a|, params, args), fuel)
  {
    var (a1, local) := NewFrame(a, Some(defining));
    BindParamsZip(a1, local, params, args);
    assert map[] + ZipMap(params, args) == ZipMap(params, args);
  }

  // ----- control flow ---------------------------------------------------------------

  /** `if`: the then branch when the condition is truthy, else the else
      branch, else None; the condition's effects come first. */
  lemma IfBranches(h: Host, cond: Node, thenBranch: Node, elseBranch: Option<Node>, env: nat, a: Arena, fuel: nat)
    requires WellFormed(a) && env < |a| && fuel >= 1
    requires Eval(h, cond, env, a, fuel - 1).Ok?
    ensures var (c, a1) := Eval(h, cond, env, a, fuel - 1).value;
      Eval(h, IfExpr(cond, thenBranch, elseBranch), env, a, fuel) ==
        if h.truthy(c) then Eval(h, thenBranch, env, a1, fuel - 1)
        else if elseBranch.Some? then Eval(h, elseBranch.value, env, a1, fuel - 1)
        else Ok((NoneValue, a1))
  {
  }

  /** A round of `while` whose condition is falsy ends the loop with the
      value of the last body run, and the condition's effects kept. */
  lemma WhileStops(h: Host, cond: Node, body: Node, env: nat, a: Arena, last: Value, fuel: nat)
    requires WellFormed(a) && env < |a|
    requires Eval(h, cond, env, a, fuel).Ok? && !h.truthy(Eval(h, cond, env, a, fuel).value.0)
    ensures Loop(h, cond, body, env, a, last, fuel) == Ok((last, Eval(h, cond, env, a, fuel).value.1))
  {
  }

  /** A round whose condition is truthy runs the body after the condition and
      goes on with the body's value, one unit of fuel less. */
  lemma WhileContinues(h: Host, cond: Node, body: Node, env: nat, a: Arena, last: Value, fuel: nat)
    requires WellFormed(a) && env < |a| && fuel >= 1
    requires Eval(h, cond, env, a, fuel).Ok? && h.truthy(Eval(h, cond, env, a, fuel).value.0)
    requires Eval(h, body, env, Eval(h, cond, env, a, fuel).value.1, fuel).Ok?
    ensures var (v, a2) := Eval(h, body, env, Eval(h, cond, env, a, fuel).value.1, fuel).value;
      Loop(h, cond, body, env, a, last, fuel) == Loop(h, cond, body, env, a2, v, fuel - 1)
  {
  }

  /** `while` starts its rounds with None as the last value. */
  lemma WhileEntry(h: Host, cond: Node, body: Node, env: nat, a: Arena, fuel: nat)
    requires WellFormed(a) && env < |a|
    ensures Eval(h, WhileExpr(cond, body), env, a, fuel + 1) == Loop(h, cond, body, env, a, NoneValue, fuel)
  {
  }

  /** A `while` that finishes ends on a falsy condition: at some fuel and
      from some arena the condition evaluates to a falsy value, and the
      arena it leaves is the one the loop answers. */
  lemma {:induction false} LoopEndsFalsy(h: Host, cond: Node, body: Node, env: nat, a: Arena, last: Value, fuel: nat)
    requires WellFormed(a) && env < |a|
    requires Loop(h, cond, body, env, a, last, fuel).Ok?
    ensures exists a0: Arena, k: nat :: (k <= fuel && WellFormed(a0) && env < |a0| &&
      Eval(h, cond, env, a0, k).Ok? && !h.truthy(Eval(h, cond, env, a0, k).value.0) &&
      Eval(h, cond, env, a0, k).value.1 == Loop(h, cond, body, env, a, last, fuel).value.1)
    decreases fuel
  {
    var a1 := Eval(h, cond, env, a, fuel).value.1;
    if h.truthy(Eval(h, cond, env, a, fuel).value.0) {
      var v, a2, f := Eval(h, body, env, a1, fuel).value.0, Eval(h, body, env, a1, fuel).value.1, fuel - 1;
      LoopNextRound(h, cond, body, env, a, last, fuel, f, a1, v, a2);
      LoopEndsFalsy(h, cond, body, env, a2, v, f);
    }
  }

  /** The value of a finished `while` is `last`, or the value of some run
      of the body. */
  lemma {:induction false} LoopValue(h: Host, cond: Node, body: Node, env: nat, a: Arena, last: Value, fuel: nat)
    requires WellFormed(a) && env < |a|
    requires Loop(h, cond, body, env, a, last, fuel).Ok?
    ensures Loop(h, cond, body, env, a, last, fuel).value.0 == last ||
      exists a0: Arena, k: nat :: (k <= fuel && WellFormed(a0) && env < |a0| &&
        Eval(h, body, env, a0, k).Ok? && Eval(h, body, env, a0, k).value.0 == Loop(h, cond, body, env, a, last, fuel).value.0)
    decreases fuel
  {
    var a1 := Eval(h, cond, env, a, fuel).value.1;
    if h.truthy(Eval(h, cond, env, a, fuel).value.0) {
      var v, a2, f := Eval(h, body, env, a1, fuel).value.0, Eval(h, body, env, a1, fuel).value.1, fuel - 1;
      LoopNextRound(h, cond, body, env, a, last, fuel, f, a1, v, a2);
      LoopValue(h, cond, body, env, a2, v, f);
    }
  }

  /** `for` evaluates the iterable, then the body once per item, and
      answers the list of the body values with the arena the last round
      left. */
  lemma ForResults(h: Host, n: Node, env: nat, a: Arena, fuel: nat)
    requires WellFormed(a) && env < |a| && fuel >= 1 && n.ForExpr?
    requires Eval(h, n.iterable, env, a, fuel - 1).Ok?
    requires Items(Eval(h, n.iterable, env, a, fuel - 1).value.0).Ok?
    ensures var (lst, a1) := Eval(h, n.iterable, env, a, fuel - 1).value;
      var rounds := EvalFor(h, n.variable, Items(lst).value, n.body, env, a1, fuel - 1);
      (rounds.Ok? ==> Eval(h, n, env, a, fuel) == Ok((ListValue(rounds.value.0), rounds.value.1))) &&
      (rounds.Err? ==> Eval(h, n, env, a, fuel) == Err(rounds.error))
  {
  }

  /** One round: the variable is set in the current environment to the
      item, then the body runs; its value heads the results of the rest. */
  lemma ForRound(h: Host, variable: string, items: seq<Value>, body: Node, env: nat, a: Arena, fuel: nat)
    requires WellFormed(a) && env < |a| && |items| > 0
    ensures var r := Eval(h, body, env, Environment.Set(a, env, variable, items[0]), fuel);
      EvalFor(h, variable, items, body, env, a, fuel) ==
        if r.Err? then Err(r.error) else Prepend([r.value.0], EvalFor(h, variable, items[1..], body, env, r.value.1, fuel))
  {
  }

  /** A `for` over one item is one run of the body with the variable set to
      it. */
  lemma ForOne(h: Host, variable: string, x: Value, body: Node, env: nat, a: Arena, fuel: nat)
    requires WellFormed(a) && env < |a|
    ensures EvalFor(h, variable, [x], body, env, a, fuel) ==
      match Eval(h, body, env, Environment.Set(a, env, variable, x), fuel)
      case Err(e) => Err(e)
      case Ok((v, a2)) => Ok(([v], a2))
  {
    assert [x][0] == x && [x][1..] == [];
    match Eval(h, body, env, Environment.Set(a, env, variable, x), fuel)
    case Err(e) =>
    case Ok((v, a2)) =>
      assert [v] + [] == [v];
  }

  /** The items of `xs + ys` run as those of `xs`, then those of `ys` from
      the arena `xs` left; the results are concatenated. */
  lemma {:induction false} ForInOrder(h: Host, variable: string, xs: seq<Value>, ys: seq<Value>, body: Node, env: nat, a: Arena, fuel: nat)
    requires WellFormed(a) && env < |a|
    ensures EvalFor(h, variable, xs + ys, body, env, a, fuel) ==
      match EvalFor(h, variable, xs, body, env, a, fuel)
      case Err(e) => Err(e)
      case Ok((vs, a1)) => Prepend(vs, EvalFor(h, variable, ys, body, env, a1, fuel))
    decreases |xs|
  {
    if |xs| == 0 {
      assert xs + ys == ys;
      match EvalFor(h, variable, ys, body, env, a, fuel)
      case Err(e) =>
      case Ok((ws, a2)) =>
        assert [] + ws == ws;
    } else {
      assert (xs + ys)[0] == xs[0];
      assert (xs + ys)[1..] == xs[1..] + ys;
      var a1 := Environment.Set(a, env, variable, xs[0]);
      ForRound(h, variable, xs + ys, body, env, a, fuel);
      ForRound(h, variable, xs, body, env, a, fuel);
      match Eval(h, body, env, a1, fuel)
      case Err(e) =>
      case Ok((v, a2)) =>
        ForInOrder(h, variable, xs[1..], ys, body, env, a2, fuel);
        match EvalFor(h, variable, xs[1..], body, env, a2, fuel)
        case Err(e) =>
        case Ok((vs, a3)) =>
          PrependTwice(v, vs, EvalFor(h, variable, ys, body, env, a3, fuel));
    }
  }

  /** The `i`-th result of a finished `for` is the body's value in the round
      for the `i`-th item: the round runs from the arena the first `i` items
      left, with the variable set to the item, and leaves the arena from
      which the next round starts. */
  lemma ForItem(h: Host, variable: string, items: seq<Value>, body: Node, env: nat, a: Arena, fuel: nat, i: nat)
    requires WellFormed(a) && env < |a| && i < |items|
    requires EvalFor(h, variable, items, body, env, a, fuel).Ok?
    ensures EvalFor(h, variable, items[..i], body, env, a, fuel).Ok?
    ensures EvalFor(h, variable, items[..i + 1], body, env, a, fuel).Ok?
    ensures var before := EvalFor(h, variable, items[..i], body, env, a, fuel).value.1;
      var after := EvalFor(h, variable, items[..i + 1], body, env, a, fuel).value.1;
      Eval(h, body, env, Environment.Set(before, env, variable, items[i]), fuel) ==
        Ok((EvalFor(h, variable, items, body, env, a, fuel).value.0[i], after))
  {
    SplitAt(items, i);
    ForAt(h, variable, items[..i], items[i], items[i + 1..], body, env, a, fuel);
  }

  /** A sequence around its `i`-th element. */
  lemma SplitAt<T>(xs: seq<T>, i: nat)
    requires i < |xs|
    ensures xs == xs[..i] + ([xs[i]] + xs[i + 1..])
    ensures xs[..i + 1] == xs[..i] + [xs[i]]
  {
    assert xs == xs[..i] + xs[i..];
    assert xs[i..] == [xs[i]] + xs[i + 1..];
  }

  /** The round for `x` in `pre + [x] + post`. */
  lemma ForAt(h: Host, variable: string, pre: seq<Value>, x: Value, post: seq<Value>, body: Node, env: nat, a: Arena, fuel: nat)
    requires WellFormed(a) && env < |a|
    requires EvalFor(h, variable, pre + ([x] + post), body, env, a, fuel).Ok?
    ensures EvalFor(h, variable, pre, body, env, a, fuel).Ok?
    ensures EvalFor(h, variable, pre + [x], body, env, a, fuel).Ok?
    ensures var before := EvalFor(h, variable, pre, body, env, a, fuel).value.1;
      var after := EvalFor(h, variable, pre + [x], body, env, a, fuel).value.1;
      Eval(h, body, env, Environment.Set(before, env, variable, x), fuel) ==
        Ok((EvalFor(h, variable, pre + ([x] + post), body, env, a, fuel).value.0[|pre|], after))
  {
    ForInOrder(h, variable, pre, [x] + post, body, env, a, fuel);
    ForInOrder(h, variable, pre, [x], body, env, a, fuel);
    var vs := EvalFor(h, variable, pre, body, env, a, fuel).value.0;
    var before := EvalFor(h, variable, pre, body, env, a, fuel).value.1;
    ForHead(h, variable, x, post, body, env, before, fuel);
  }

  /** The rounds of `[x] + post` begin with the round for `x`, which is also
      the whole of the rounds of `[x]`. */
  lemma ForHead(h: Host, variable: string, x: Value, post: seq<Value>, body: Node, env: nat, a: Arena, fuel: nat)
    requires WellFormed(a) && env < |a|
    requires EvalFor(h, variable, [x] + post, body, env, a, fuel).Ok?
    ensures EvalFor(h, variable, [x], body, env, a, fuel).Ok?
    ensures Eval(h, body, env, Environment.Set(a, env, variable, x), fuel) ==
      Ok((EvalFor(h, variable, [x] + post, body, env, a, fuel).value.0[0], EvalFor(h, variable, [x], body, env, a, fuel).value.1))
  {
    ForRound(h, variable, [x] + post, body, env, a, fuel);
    assert ([x] + post)[0] == x && ([x] + post)[1..] == post;
    ForOne(h, variable, x, body, env, a, fuel);
  }

  /** After a `for` over at least one item, the loop variable is bound in
      the current environment. */
  lemma ForBindsVariable(h: Host, variable: string, items: seq<Value>, body: Node, env: nat, a: Arena, fuel: nat)
    requires WellFormed(a) && env < |a| && |items| > 0
    requires EvalFor(h, variable, items, body, env, a, fuel).Ok?
    ensures variable in EvalFor(h, variable, items, body, env, a, fuel).value.1[env].vars
  {
    var a1 := Environment.Set(a, env, variable, items[0]);
    assert variable in a1[env].vars;
  }

  // ----- blocks ---------------------------------------------------------------------

  /** The statements of `xs + ys` run as those of `xs`, then those of `ys`
      from where `xs` left off. */
  lemma {:induction false} BlockInOrder(h: Host, xs: seq<Node>, ys: seq<Node>, env: nat, a: Arena, last: Value, fuel: nat)
    requires WellFormed(a) && env < |a|
    ensures EvalBlock(h, xs + ys, env, a, last, fuel) ==
      match EvalBlock(h, xs, env, a, last, fuel)
      case Err(e) => Err(e)
      case Ok((v, a1)) => EvalBlock(h, ys, env, a1, v, fuel)
    decreases |xs|
  {
    if |xs| == 0 {
      assert xs + ys == ys;
    } else {
      assert (xs + ys)[0] == xs[0];
      assert (xs + ys)[1..] == xs[1..] + ys;
      match Eval(h, xs[0], env, a, fuel)
      case Err(e) =>
      case Ok((v, a1)) =>
        BlockInOrder(h, xs[1..], ys, env, a1, v, fuel);
    }
  }

  /** An empty block answers None; a one-statement block answers its
      statement. */
  lemma BlockValues(h: Host, s: Node, env: nat, a: Arena, fuel: nat)
    requires WellFormed(a) && env < |a|
    ensures Eval(h, Block([]), env, a, fuel + 1) == Ok((NoneValue, a))
    ensures Eval(h, Block([s]), env, a, fuel + 1) == Eval(h, s, env, a, fuel)
  {
    assert [s][0] == s && [s][1..] == [];
    match Eval(h, s, env, a, fuel)
    case Err(e) =>
    case Ok((v, a1)) =>
      assert EvalBlock(h, [], env, a1, v, fuel) == Ok((v, a1));
  }

  // ----- fuel ----------------------------------------------------------------------

  /** Without fuel nothing is evaluated. */
  lemma NoFuel(h: Host, n: Node, env: nat, a: Arena)
    requires WellFormed(a) && env < |a|
    ensures Eval(h, n, env, a, 0) == Err(OutOfFuel)
  {
  }

  /** An evaluation that did not run out of fuel gives the same result with
      any larger amount: its value, its arena and its errors are those of an
      evaluation without a bound. */
  lemma {:induction false} EvalFuel(h: Host, n: Node, env: nat, a: Arena, fuel: nat, more: nat)
    requires WellFormed(a) && env < |a| && fuel <= more
    requires Eval(h, n, env, a, fuel) != Err(OutOfFuel)
    ensures Eval(h, n, env, a, more) == Eval(h, n, env, a, fuel)
    decreases fuel, 1
  {
    match n
    case Number(_) =>
    case Str(_) =>
    case Var(_) =>
    case Assign(_, _) => AssignFuel(h, n, env, a, fuel, more);
    case FuncCall(_, _) => CallNodeFuel(h, n, env, a, fuel, more);
    case IfExpr(_, _, _) => IfFuel(h, n, env, a, fuel, more);
    case WhileExpr(cond, body) =>
      assert Eval(h, n, env, a, fuel) == Loop(h, cond, body, env, a, NoneValue, fuel - 1);
      LoopFuel(h, cond, body, env, a, NoneValue, fuel - 1, more - 1);
    case ForExpr(_, _, _) => ForNodeFuel(h, n, env, a, fuel, more);
    case FuncDef(_, _, _) =>
    case Block(statements) =>
      assert Eval(h, n, env, a, fuel) == EvalBlock(h, statements, env, a, NoneValue, fuel - 1);
      BlockFuel(h, statements, env, a, NoneValue, fuel - 1, more - 1);
  }

  lemma {:induction false} AssignFuel(h: Host, n: Node, env: nat, a: Arena, fuel: nat, more: nat)
    requires n.Assign? && WellFormed(a) && env < |a| && fuel <= more
    requires Eval(h, n, env, a, fuel) != Err(OutOfFuel)
    ensures Eval(h, n, env, a, more) == Eval(h, n, env, a, fuel)
    decreases fuel, 0
  {
    EvalFuel(h, n.value, env, a, fuel - 1, more - 1);
  }

  lemma {:induction false} CallNodeFuel(h: Host, n: Node, env: nat, a: Arena, fuel: nat, more: nat)
    requires n.FuncCall? && WellFormed(a) && env < |a| && fuel <= more
    requires Eval(h, n, env, a, fuel) != Err(OutOfFuel)
    ensures Eval(h, n, env, a, more) == Eval(h, n, env, a, fuel)
    decreases fuel, 0
  {
    var f, g := fuel - 1, more - 1;
    if Environment.Get(a, env, n.func).Ok? {
      var callee := Environment.Get(a, env, n.func).value;
      ArgsFuel(h, n.args, env, a, f, g);
      if EvalArgs(h, n.args, env, a, f).Ok? {
        var (vs, a1) := EvalArgs(h, n.args, env, a, f).value;
        CallFuel(h, n.func, callee, vs, a1, f, g);
      }
    }
  }

  lemma {:induction false} IfFuel(h: Host, n: Node, env: nat, a: Arena, fuel: nat, more: nat)
    requires n.IfExpr? && WellFormed(a) && env < |a| && fuel <= more
    requires Eval(h, n, env, a, fuel) != Err(OutOfFuel)
    ensures Eval(h, n, env, a, more) == Eval(h, n, env, a, fuel)
    decreases fuel, 0
  {
    var f, g := fuel - 1, more - 1;
    EvalFuel(h, n.cond, env, a, f, g);
    if Eval(h, n.cond, env, a, f).Ok? {
      var (c, a1) := Eval(h, n.cond, env, a, f).value;
      if h.truthy(c) {
        EvalFuel(h, n.thenBranch, env, a1, f, g);
      } else if n.elseBranch.Some? {
        EvalFuel(h, n.elseBranch.value, env, a1, f, g);
      }
    }
  }

  lemma {:induction false} ForNodeFuel(h: Host, n: Node, env: nat, a: Arena, fuel: nat, more: nat)
    requires n.ForExpr? && WellFormed(a) && env < |a| && fuel <= more
    requires Eval(h, n, env, a, fuel) != Err(OutOfFuel)
    ensures Eval(h, n, env, a, more) == Eval(h, n, env, a, fuel)
    decreases fuel, 0
  {
    var f, g := fuel - 1, more - 1;
    EvalFuel(h, n.iterable, env, a, f, g);
    if Eval(h, n.iterable, env, a, f).Ok? && Items(Eval(h, n.iterable, env, a, f).value.0).Ok? {
      ForItemsFuel(h, n, env, a, fuel, more, f, g);
    }
  }

  /** Once the items are known, the rounds run the same at `more`. */
  lemma {:induction false} ForItemsFuel(h: Host, n: Node, env: nat, a: Arena, fuel: nat, more: nat, f: nat, g: nat)
    requires n.ForExpr? && WellFormed(a) && env < |a| && f <= g && fuel == f + 1 && more == g + 1
    requires Eval(h, n, env, a, fuel) != Err(OutOfFuel)
    requires Eval(h, n.iterable, env, a, g) == Eval(h, n.iterable, env, a, f)
    requires Eval(h, n.iterable, env, a, f).Ok? && Items(Eval(h, n.iterable, env, a, f).value.0).Ok?
    ensures Eval(h, n, env, a, more) == Eval(h, n, env, a, fuel)
    decreases f, 3
  {
    var (lst, a1) := Eval(h, n.iterable, env, a, f).value;
    ForResults(h, n, env, a, fuel);
    ForResults(h, n, env, a, more);
    ForFuel(h, n.variable, Items(lst).value, n.body, env, a1, f, g);
  }

  lemma {:induction false} ArgsFuel(h: Host, args: seq<Node>, env: nat, a: Arena, fuel: nat, more: nat)
    requires WellFormed(a) && env < |a| && fuel <= more
    requires EvalArgs(h, args, env, a, fuel) != Err(OutOfFuel)
    ensures EvalArgs(h, args, env, a, more) == EvalArgs(h, args, env, a, fuel)
    decreases fuel, 2, |args|
  {
    if |args| > 0 {
      EvalFuel(h, args[0], env, a, fuel, more);
      if Eval(h, args[0], env, a, fuel).Ok? {
        var (v, a1) := Eval(h, args[0], env, a, fuel).value;
        ArgsFuel(h, args[1..], env, a1, fuel, more);
      }
    }
  }

  lemma {:induction false} CallFuel(h: Host, func: string, callee: Value, args: seq<Value>, a: Arena, fuel: nat, more: nat)
    requires WellFormed(a) && fuel <= more
    requires Call(h, func, callee, args, a, fuel) != Err(OutOfFuel)
    ensures Call(h, func, callee, args, a, more) == Call(h, func, callee, args, a, fuel)
    decreases fuel, 2
  {
    if callee.Closure? && callee.env < |a| {
      var (a1, local) := NewFrame(a, Some(callee.env));
      var a2 := BindParams(a1, local, callee.params, args);
      EvalFuel(h, callee.body, local, a2, fuel, more);
    }
  }

  lemma {:induction false} LoopFuel(h: Host, cond: Node, body: Node, env: nat, a: Arena, last: Value, fuel: nat, more: nat)
    requires WellFormed(a) && env < |a| && fuel <= more
    requires Loop(h, cond, body, env, a, last, fuel) != Err(OutOfFuel)
    ensures Loop(h, cond, body, env, a, last, more) == Loop(h, cond, body, env, a, last, fuel)
    decreases fuel, 5
  {
    if Eval(h, cond, env, a, fuel).Ok? && h.truthy(Eval(h, cond, env, a, fuel).value.0) {
      LoopRoundFuel(h, cond, body, env, a, last, fuel, more);
    } else {
      LoopStopFuel(h, cond, body, env, a, last, fuel, more);
    }
  }

  /** A condition that fails or is falsy at `fuel` does so at `more`. */
  lemma {:induction false} LoopStopFuel(h: Host, cond: Node, body: Node, env: nat, a: Arena, last: Value, fuel: nat, more: nat)
    requires WellFormed(a) && env < |a| && fuel <= more
    requires Loop(h, cond, body, env, a, last, fuel) != Err(OutOfFuel)
    requires !(Eval(h, cond, env, a, fuel).Ok? && h.truthy(Eval(h, cond, env, a, fuel).value.0))
    ensures Loop(h, cond, body, env, a, last, more) == Loop(h, cond, body, env, a, last, fuel)
    decreases fuel, 3
  {
    EvalFuel(h, cond, env, a, fuel, more);
  }

  /** A round whose condition holds at `fuel` runs the same at `more`. */
  lemma {:induction false} LoopRoundFuel(h: Host, cond: Node, body: Node, env: nat, a: Arena, last: Value, fuel: nat, more: nat)
    requires WellFormed(a) && env < |a| && fuel <= more
    requires Loop(h, cond, body, env, a, last, fuel) != Err(OutOfFuel)
    requires Eval(h, cond, env, a, fuel).Ok? && h.truthy(Eval(h, cond, env, a, fuel).value.0)
    ensures Loop(h, cond, body, env, a, last, more) == Loop(h, cond, body, env, a, last, fuel)
    decreases fuel, 4
  {
    EvalFuel(h, cond, env, a, fuel, more);
    var a1 := Eval(h, cond, env, a, fuel).value.1;
    if Eval(h, body, env, a1, fuel).Ok? && fuel > 0 {
      var (v, a2) := Eval(h, body, env, a1, fuel).value;
      LoopNextFuel(h, cond, body, env, a, last, fuel, more, a1, v, a2);
    } else {
      LoopBodyFuel(h, cond, body, env, a, last, fuel, more);
    }
  }

  /** A round whose body fails at `fuel` fails the same at `more`. */
  lemma {:induction false} LoopBodyFuel(h: Host, cond: Node, body: Node, env: nat, a: Arena, last: Value, fuel: nat, more: nat)
    requires WellFormed(a) && env < |a| && fuel <= more
    requires Loop(h, cond, body, env, a, last, fuel) != Err(OutOfFuel)
    requires Eval(h, cond, env, a, more) == Eval(h, cond, env, a, fuel)
    requires Eval(h, cond, env, a, fuel).Ok? && h.truthy(Eval(h, cond, env, a, fuel).value.0)
    requires !(Eval(h, body, env, Eval(h, cond, env, a, fuel).value.1, fuel).Ok? && fuel > 0)
    ensures Loop(h, cond, body, env, a, last, more) == Loop(h, cond, body, env, a, last, fuel)
    decreases fuel, 2
  {
    EvalFuel(h, body, env, Eval(h, cond, env, a, fuel).value.1, fuel, more);
  }

  /** One round of `while` at `fuel`: the condition is truthy and leaves
      `a1`, and the body then finishes with `v` in `a2`. */
  ghost predicate Round(h: Host, cond: Node, body: Node, env: nat, a: Arena, fuel: nat, a1: Arena, v: Value, a2: Arena) {
    WellFormed(a) && env < |a| && 0 < fuel &&
    Eval(h, cond, env, a, fuel).Ok? && h.truthy(Eval(h, cond, env, a, fuel).value.0) &&
    Eval(h, cond, env, a, fuel).value.1 == a1 && WellFormed(a1) && env < |a1| &&
    Eval(h, body, env, a1, fuel) == Ok((v, a2)) && WellFormed(a2) && env < |a2|
  }

  /** A round whose body finishes at `fuel` goes on to the same next round. */
  lemma {:induction false} LoopNextFuel(h: Host, cond: Node, body: Node, env: nat, a: Arena, last: Value, fuel: nat, more: nat,
                                        a1: Arena, v: Value, a2: Arena)
    requires Round(h, cond, body, env, a, fuel, a1, v, a2) && fuel <= more
    requires Eval(h, cond, env, a, more) == Eval(h, cond, env, a, fuel)
    requires Loop(h, cond, body, env, a, last, fuel) != Err(OutOfFuel)
    ensures Loop(h, cond, body, env, a, last, more) == Loop(h, cond, body, env, a, last, fuel)
    decreases fuel, 3
  {
    var f, m := fuel - 1, more - 1;
    LoopNextSame(h, cond, body, env, a, last, fuel, more, f, m, a1, v, a2);
    LoopRestFuel(h, cond, body, env, a, last, fuel, more, f, m, a2, v);
  }

  /** With the round's body unchanged at `more`, both fuels move on to the
      round that starts from `a2` with `v`, one unit of fuel lower. */
  lemma {:induction false} LoopNextSame(h: Host, cond: Node, body: Node, env: nat, a: Arena, last: Value, fuel: nat, more: nat,
                                        f: nat, m: nat, a1: Arena, v: Value, a2: Arena)
    requires Round(h, cond, body, env, a, fuel, a1, v, a2) && fuel <= more && fuel == f + 1 && more == m + 1
    requires Eval(h, cond, env, a, more) == Eval(h, cond, env, a, fuel)
    requires Loop(h, cond, body, env, a, last, fuel) != Err(OutOfFuel)
    ensures Loop(h, cond, body, env, a, last, fuel) == Loop(h, cond, body, env, a2, v, f)
    ensures Loop(h, cond, body, env, a, last, more) == Loop(h, cond, body, env, a2, v, m)
    decreases fuel, 2
  {
    EvalFuel(h, body, env, a1, fuel, more);
    LoopNextRound(h, cond, body, env, a, last, fuel, f, a1, v, a2);
    LoopNextRound(h, cond, body, env, a, last, more, m, a1, v, a2);
  }

  /** The rounds that follow run the same at `f` and `m`. */
  lemma {:induction false} LoopRestFuel(h: Host, cond: Node, body: Node, env: nat, a: Arena, last: Value, fuel: nat, more: nat,
                                        f: nat, m: nat, a2: Arena, v: Value)
    requires WellFormed(a) && env < |a| && WellFormed(a2) && env < |a2| && f <= m && fuel == f + 1 && more == m + 1
    requires Loop(h, cond, body, env, a, last, fuel) == Loop(h, cond, body, env, a2, v, f)
    requires Loop(h, cond, body, env, a, last, more) == Loop(h, cond, body, env, a2, v, m)
    requires Loop(h, cond, body, env, a2, v, f) != Err(OutOfFuel)
    ensures Loop(h, cond, body, env, a, last, more) == Loop(h, cond, body, env, a, last, fuel)
    decreases fuel, 2
  {
    LoopFuel(h, cond, body, env, a2, v, f, m);
  }

  /** A truthy condition and a finished body lead to the next round, with
      one unit of fuel less. */
  lemma LoopNextRound(h: Host, cond: Node, body: Node, env: nat, a: Arena, last: Value, fuel: nat, f: nat,
                      a1: Arena, v: Value, a2: Arena)
    requires Round(h, cond, body, env, a, fuel, a1, v, a2) && fuel == f + 1
    ensures Loop(h, cond, body, env, a, last, fuel) == Loop(h, cond, body, env, a2, v, f)
  {
    var c := Eval(h, cond, env, a, fuel).value.0;
    assert Eval(h, cond, env, a, fuel) == Ok((c, a1));
  }

  lemma {:induction false} ForFuel(h: Host, variable: string, items: seq<Value>, body: Node, env: nat, a: Arena, fuel: nat, more: nat)
    requires WellFormed(a) && env < |a| && fuel <= more
    requires EvalFor(h, variable, items, body, env, a, fuel) != Err(OutOfFuel)
    ensures EvalFor(h, variable, items, body, env, a, more) == EvalFor(h, variable, items, body, env, a, fuel)
    decreases fuel, 2, |items|
  {
    if |items| > 0 {
      var a1 := Environment.Set(a, env, variable, items[0]);
      EvalFuel(h, body, env, a1, fuel, more);
      ForRound(h, variable, items, body, env, a, fuel);
      ForRound(h, variable, items, body, env, a, more);
      if Eval(h, body, env, a1, fuel).Ok? {
        var (v, a2) := Eval(h, body, env, a1, fuel).value;
        ForFuel(h, variable, items[1..], body, env, a2, fuel, more);
      }
    }
  }

  lemma {:induction false} BlockFuel(h: Host, statements: seq<Node>, env: nat, a: Arena, last: Value, fuel: nat, more: nat)
    requires WellFormed(a) && env < |a| && fuel <= more
    requires EvalBlock(h, statements, env, a, last, fuel) != Err(OutOfFuel)
    ensures EvalBlock(h, statements, env, a, last, more) == EvalBlock(h, statements, env, a, last, fuel)
    decreases fuel, 2, |statements|
  {
    if |statements| > 0 {
      EvalFuel(h, statements[0], env, a, fuel, more);
      if Eval(h, statements[0], env, a, fuel).Ok? {
        var (v, a1) := Eval(h, statements[0], env, a, fuel).value;
        BlockFuel(h, statements[1..], env, a1, v, fuel, more);
      }
    }
  }

  /** `eval(node)` without an environment is `eval(node, global_env)`: the
      global frame evaluates it, and a given environment is used as it is. */
  lemma EvalInDefault(h: Host, interp: Interp, n: Node, env: Option<nat>, fuel: nat)
    requires WellFormed(interp.arena) && interp.global < |interp.arena|
    requires env.Some? ==> env.value < |interp.arena|
    ensures env.None? ==> EvalIn(h, interp, n, env, fuel) == EvalIn(h, interp, n, Some(interp.global), fuel)
    ensures EvalIn(h, interp, n, env, fuel) == Eval(h, n, if env.Some? then env.value else interp.global, interp.arena, fuel)
  {
  }
}
