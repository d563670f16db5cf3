/**
 * Type-variable bindings: looking a variable up transitively (`unrollVariableAssignments`),
 * replacing a variable by its binding (`substituteTypeVariables`) and binding the declared
 * type parameters of a class to the arguments of a parameterized type (the `put` loop of
 * `getTypeArguments`).
 */
module Variables {
  import opened Wrappers
  import opened TypeModel

  /** `new HashMap<>(seed)`, or an empty map when the seed is `null`. */
  function CopyOf(seed: Option<Assigns>): (m: Assigns)
    ensures seed.Some? ==> m == seed.value
    ensures seed.None? ==> |m| == 0
  {
    if seed.Some? then seed.value else map[]
  }

  /** A set holding `n` has a least element: descend from `n` while a smaller member exists. */
  lemma {:induction false} LeastBelow(s: set<VarId>, n: VarId)
    requires n in s
    ensures exists k :: k in s && forall j :: j in s ==> k <= j
    decreases n
  {
    if !(forall j :: j in s ==> n <= j) {
      var j :| j in s && j < n;
      LeastBelow(s, j);
    }
  }

  /** The least variable of a non-empty set: the order in which the model visits map keys. */
  function MinVar(s: set<VarId>): (k: VarId)
    requires s != {}
    ensures k in s && forall j :: j in s ==> k <= j
  {
    var x :| x in s;
    LeastBelow(s, x);
    var k :| k in s && forall j :: j in s ==> k <= j;
    k
  }

  /**
   * `substituteTypeVariables`: with a map, a type variable is replaced by its binding and a
   * variable without one is an error; anything else is returned unchanged.
   */
  function Substitute(t: Option<Type>, m: Option<Assigns>): (r: Result<Option<Type>>)
    ensures !(t.Some? && t.value.TVar? && m.Some?) ==> r == Ok(t)
    ensures t.Some? && t.value.TVar? && m.Some? ==>
              (r.Ok? <==> t.value.v in m.value) &&
              (r.Ok? ==> r.value == Some(m.value[t.value.v])) &&
              (r.Err? ==> r.failure == IllegalArgument)
  {
    if t.Some? && t.value.TVar? && m.Some? then
      if t.value.v in m.value then Ok(Some(m.value[t.value.v])) else Err(IllegalArgument)
    else Ok(t)
  }

  /**
   * `unrollVariableAssignments` from variable `v`, having already passed through the
   * variables in `visited`: follow variable-to-variable bindings until an unbound variable
   * (`None`), a non-variable, or a variable bound to itself. Coming back to a visited
   * variable is a cycle, on which the source loops forever.
   */
  function Unroll(m: Assigns, v: VarId, visited: set<VarId>): (r: Result<Option<Type>>)
    // an unbound variable unrolls to null, a variable bound to a non-variable to that binding
    ensures v !in m ==> r == Ok(None)
    ensures v in m && v !in visited && !m[v].TVar? ==> r == Ok(Some(m[v]))
    // a cycle can only be entered through a bound variable
    ensures r == Err(NonTermination) ==> v in m
    decreases m.Keys - visited
  {
    if v !in m then Ok(None)
    else if v in visited then Err(NonTermination)
    else match m[v]
      case TVar(w) => if w == v then Ok(Some(m[v])) else Unroll(m, w, visited + {v})
      case _ => Ok(Some(m[v]))
  }

  /** A result of unrolling is absent, not a variable, or a variable bound to itself. */
  predicate Terminal(m: Assigns, r: Option<Type>) {
    r.None? || !r.value.TVar? || (r.value.v in m && m[r.value.v] == r.value)
  }

  lemma {:induction false} UnrollOutcome(m: Assigns, v: VarId, visited: set<VarId>)
    ensures Unroll(m, v, visited).Ok? ==> Terminal(m, Unroll(m, v, visited).value)
    ensures Unroll(m, v, visited).Ok? && Unroll(m, v, visited).value.Some? ==>
              Unroll(m, v, visited).value.value in m.Values
    ensures Unroll(m, v, visited).Err? ==> Unroll(m, v, visited).failure == NonTermination
    decreases m.Keys - visited
  {
    if v in m && v !in visited && m[v].TVar? && m[v].v != v {
      UnrollOutcome(m, m[v].v, visited + {v});
    }
  }

  /** Two variables bound to each other: the source's loop never ends. */
  lemma UnrollTwoCycle(a: VarId, b: VarId)
    requires a != b
    ensures Unroll(map[a := TVar(b), b := TVar(a)], a, {}) == Err(NonTermination)
  {
    var m := map[a := TVar(b), b := TVar(a)];
    assert a in m && m[a] == TVar(b) && b in m && m[b] == TVar(a);
    var v0: set<VarId> := {};
    var v1 := v0 + {a};
    assert Unroll(m, a, v0) == Unroll(m, b, v1);
    assert Unroll(m, b, v1) == Unroll(m, a, v1 + {b});
  }

  /** The do-while loop of `unrollVariableAssignments`, on a chain that ends. */
  method UnrollVariableAssignments(m: Assigns, start: VarId) returns (result: Option<Type>)
    requires Unroll(m, start, {}).Ok?
    ensures result == Unroll(m, start, {}).value
    ensures Terminal(m, result)
  {
    UnrollOutcome(m, start, {});
    var v := start;
    ghost var visited: set<VarId> := {};
    result := None;
    while true
      invariant Unroll(m, v, visited) == Unroll(m, start, {})
      decreases m.Keys - visited
    {
      result := if v in m then Some(m[v]) else None;
      if result.Some? && result.value.TVar? && result.value.v != v {
        visited := visited + {v};
        v := result.value.v;
        continue;
      }
      break;
    }
  }

  /** The value `put` stores for a type argument: its binding if it is a bound variable. */
  function ArgumentFor(m: Assigns, arg: Type): Type {
    if arg.TVar? && arg.v in m then m[arg.v] else arg
  }

  /** The map after the first `n` rounds of the `put` loop of `getTypeArguments`. */
  function BindParams(m: Assigns, params: seq<VarId>, args: seq<Type>, n: nat): (r: Assigns)
    requires n <= |params| <= |args|
  {
    if n == 0 then m
    else
      var prev := BindParams(m, params, args, n - 1);
      prev[params[n - 1] := ArgumentFor(prev, args[n - 1])]
  }

  lemma {:induction false} BindParamsKeys(m: Assigns, params: seq<VarId>, args: seq<Type>, n: nat)
    requires n <= |params| <= |args|
    ensures BindParams(m, params, args, n).Keys == m.Keys + set i | 0 <= i < n :: params[i]
  {
    if n > 0 {
      BindParamsKeys(m, params, args, n - 1);
      assert (set i | 0 <= i < n :: params[i]) == (set i | 0 <= i < n - 1 :: params[i]) + {params[n - 1]};
    }
  }

  /** Entries of the incoming map whose variable is not a parameter survive unchanged. */
  lemma {:induction false} BindParamsKeepsOthers(m: Assigns, params: seq<VarId>, args: seq<Type>, n: nat, k: VarId)
    requires n <= |params| <= |args|
    requires k in m && forall i :: 0 <= i < n ==> params[i] != k
    ensures k in BindParams(m, params, args, n) && BindParams(m, params, args, n)[k] == m[k]
  {
    if n > 0 {
      BindParamsKeepsOthers(m, params, args, n - 1, k);
    }
  }

  /**
   * With distinct parameters, parameter `i` is bound to argument `i`, or, when that argument
   * is a variable already bound in the incoming map (and not itself a parameter), to that
   * binding.
   */
  lemma {:induction false} BindParamsPositional(m: Assigns, params: seq<VarId>, args: seq<Type>, n: nat, i: nat)
    requires n <= |params| <= |args| && i < n
    requires forall a, b :: 0 <= a < b < |params| ==> params[a] != params[b]
    requires args[i].TVar? ==> forall j :: 0 <= j < |params| ==> params[j] != args[i].v
    ensures params[i] in BindParams(m, params, args, n)
    ensures BindParams(m, params, args, n)[params[i]] == ArgumentFor(m, args[i])
  {
    if i < n - 1 {
      BindParamsPositional(m, params, args, n - 1, i);
    } else {
      var prev := BindParams(m, params, args, n - 1);
      if args[i].TVar? && args[i].v in m {
        BindParamsKeepsOthers(m, params, args, n - 1, args[i].v);
      } else if args[i].TVar? {
        BindParamsKeys(m, params, args, n - 1);
        assert args[i].v !in prev;
      }
    }
  }

  /** The `put` loop of `getTypeArguments` over a copy of the incoming map. */
  method BindTypeParameters(m0: Assigns, params: seq<VarId>, args: seq<Type>) returns (m: Assigns)
    requires |params| <= |args|
    ensures m == BindParams(m0, params, args, |params|)
  {
    m := m0;
    var i := 0;
    while i < |params|
      invariant 0 <= i <= |params|
      invariant m == BindParams(m0, params, args, i)
    {
      var typeArg := args[i];
      m := m[params[i] := if typeArg.TVar? && typeArg.v in m then m[typeArg.v] else typeArg];
      i := i + 1;
    }
  }
}
