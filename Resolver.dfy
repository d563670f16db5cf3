/**
 * `determineTypeArguments` and `mapTypeVariablesToArguments`: pushing the type arguments of a
 * parameterized supertype down to the type variables of a subclass.
 */
module Resolver {
  import opened Wrappers
  import opened TypeModel
  import opened Variables
  import opened Hierarchy
  import opened TypeUtils
  import opened Resolution

  /**
   * The caller's map after the first `n` rounds of the loop of `mapTypeVariablesToArguments`:
   * when argument `i` is a type variable of the subclass (one of `clsParams`) and the
   * supertype's variable `typeVars[i]` has an assignment, that assignment is copied to it.
   * A `null` map fails only when it is consulted.
   */
  function MapArgs(clsParams: seq<VarId>, typeVars: seq<VarId>, typeArgs: seq<Type>, n: nat, m: Option<Assigns>): (r: Result<Option<Assigns>>)
    requires n <= |typeArgs|
    // more arguments than the supertype has variables overrun `typeVars`
    ensures n > |typeVars| ==> r.Err?
  {
    if n == 0 then Ok(m)
    else match MapArgs(clsParams, typeVars, typeArgs, n - 1, m)
      case Err(e) => Err(e)
      case Ok(cur) =>
        if n - 1 >= |typeVars| then Err(IndexOutOfBounds)
        else
          var typeVar := typeVars[n - 1];
          var typeArg := typeArgs[n - 1];
          if !(typeArg.TVar? && typeArg.v in clsParams) then Ok(cur)
          else if cur.None? then Err(NullPointer)
          else if typeVar in cur.value then Ok(Some(cur.value[typeArg.v := cur.value[typeVar]]))
          else Ok(cur)
  }

  /** `mapTypeVariablesToArguments`: the owner chain first, outermost owner first. */
  function MapVariables(ct: ClassTable, cls: ClassId, pt: Type, m: Option<Assigns>): (r: Result<Option<Assigns>>)
    requires pt.Param?
    ensures |pt.args| > |TypeParams(ct, pt.raw)| ==> r.Err?
    decreases pt
  {
    var start := if pt.owner.Some? && pt.owner.value.Param? then MapVariables(ct, cls, pt.owner.value, m) else Ok(m);
    match start
    case Err(e) => Err(e)
    case Ok(m1) => MapArgs(TypeParams(ct, cls), TypeParams(ct, pt.raw), pt.args, |pt.args|, m1)
  }

  /**
   * With a map and no more arguments than the supertype has variables, the loop succeeds; it
   * only writes variables of the subclass, every value it writes was already in the map, and
   * entries for other variables are untouched.
   */
  lemma {:induction false} MapArgsPropagates(clsParams: seq<VarId>, typeVars: seq<VarId>, typeArgs: seq<Type>, n: nat, m: Assigns)
    requires n <= |typeArgs| <= |typeVars|
    ensures MapArgs(clsParams, typeVars, typeArgs, n, Some(m)).Ok?
    ensures MapArgs(clsParams, typeVars, typeArgs, n, Some(m)).value.Some?
    ensures forall k :: k in MapArgs(clsParams, typeVars, typeArgs, n, Some(m)).value.value ==>
              k in m || k in clsParams
    ensures forall k :: k in m && k !in clsParams ==>
              k in MapArgs(clsParams, typeVars, typeArgs, n, Some(m)).value.value &&
              MapArgs(clsParams, typeVars, typeArgs, n, Some(m)).value.value[k] == m[k]
    ensures forall k :: k in MapArgs(clsParams, typeVars, typeArgs, n, Some(m)).value.value ==>
              MapArgs(clsParams, typeVars, typeArgs, n, Some(m)).value.value[k] in m.Values
  {
    if n > 0 {
      MapArgsPropagates(clsParams, typeVars, typeArgs, n - 1, m);
    }
  }

  /**
   * When the supertype's variables are not variables of the subclass, a subclass variable
   * that is argument `i` (and no later argument) receives the assignment the supertype's
   * variable `i` had.
   */
  lemma {:induction false} MapArgsPositional(clsParams: seq<VarId>, typeVars: seq<VarId>, typeArgs: seq<Type>, n: nat, m: Assigns, i: nat)
    requires n <= |typeArgs| <= |typeVars| && i < n
    requires forall j :: 0 <= j < |typeVars| ==> typeVars[j] !in clsParams
    requires typeArgs[i].TVar? && typeArgs[i].v in clsParams && typeVars[i] in m
    requires forall j :: i < j < n ==> typeArgs[j] != typeArgs[i]
    ensures MapArgs(clsParams, typeVars, typeArgs, n, Some(m)).Ok? && MapArgs(clsParams, typeVars, typeArgs, n, Some(m)).value.Some?
    ensures typeArgs[i].v in MapArgs(clsParams, typeVars, typeArgs, n, Some(m)).value.value
    ensures MapArgs(clsParams, typeVars, typeArgs, n, Some(m)).value.value[typeArgs[i].v] == m[typeVars[i]]
  {
    MapArgsPropagates(clsParams, typeVars, typeArgs, n, m);
    MapArgsPropagates(clsParams, typeVars, typeArgs, n - 1, m);
    if i < n - 1 {
      MapArgsPositional(clsParams, typeVars, typeArgs, n - 1, m, i);
    } else {
      assert typeVars[i] in MapArgs(clsParams, typeVars, typeArgs, n - 1, Some(m)).value.value;
    }
  }

  /** With a map and well-sized arguments all along the owner chain, the mapping succeeds. */
  predicate ArityFits(ct: ClassTable, pt: Type)
    requires pt.Param?
    decreases pt
  {
    && |pt.args| <= |TypeParams(ct, pt.raw)|
    && (pt.owner.Some? && pt.owner.value.Param? ==> ArityFits(ct, pt.owner.value))
  }

  lemma {:induction false} MapVariablesPropagates(ct: ClassTable, cls: ClassId, pt: Type, m: Assigns)
    requires pt.Param? && ArityFits(ct, pt)
    ensures MapVariables(ct, cls, pt, Some(m)).Ok? && MapVariables(ct, cls, pt, Some(m)).value.Some?
    ensures forall k :: k in m && k !in TypeParams(ct, cls) ==>
              k in MapVariables(ct, cls, pt, Some(m)).value.value &&
              MapVariables(ct, cls, pt, Some(m)).value.value[k] == m[k]
    ensures forall k :: k in MapVariables(ct, cls, pt, Some(m)).value.value ==>
              (k in m || k in TypeParams(ct, cls)) && MapVariables(ct, cls, pt, Some(m)).value.value[k] in m.Values
    decreases pt
  {
    var m1 := m;
    if pt.owner.Some? && pt.owner.value.Param? {
      MapVariablesPropagates(ct, cls, pt.owner.value, m);
      m1 := MapVariables(ct, cls, pt.owner.value, Some(m)).value.value;
    }
    MapArgsPropagates(TypeParams(ct, cls), TypeParams(ct, pt.raw), pt.args, |pt.args|, m1);
  }

  /** The map of variable assignments that `mapTypeVariablesToArguments` updates in place. */
  class TypeVarAssigns {
    var entries: Assigns

    constructor (initial: Assigns)
      ensures entries == initial
    {
      entries := initial;
    }
  }

  /**
   * `mapTypeVariablesToArguments` on the caller's map (possibly `null`): on success the map
   * holds what `MapVariables` computes; on failure the exception is reported.
   */
  method MapTypeVariablesToArguments(ct: ClassTable, cls: ClassId, pt: Type, assigns: TypeVarAssigns?) returns (failure: Option<Failure>)
    requires pt.Param?
    modifies assigns
    ensures var before := if assigns == null then None else Some(old(assigns.entries));
            var after := if assigns == null then None else Some(assigns.entries);
            if failure.None? then MapVariables(ct, cls, pt, before) == Ok(after)
            else MapVariables(ct, cls, pt, before) == Err(failure.value)
    decreases pt
  {
    ghost var before := if assigns == null then None else Some(assigns.entries);
    if pt.owner.Some? && pt.owner.value.Param? {
      failure := MapTypeVariablesToArguments(ct, cls, pt.owner.value, assigns);
      if failure.Some? {
        return;
      }
    }
    ghost var start := if assigns == null then None else Some(assigns.entries);
    assert MapVariables(ct, cls, pt, before) == MapArgs(TypeParams(ct, cls), TypeParams(ct, pt.raw), pt.args, |pt.args|, start);
    var typeArgs := pt.args;
    var typeVars := TypeParams(ct, pt.raw);
    var typeVarList := TypeParams(ct, cls);
    var i := 0;
    while i < |typeArgs|
      invariant 0 <= i <= |typeArgs|
      invariant MapArgs(typeVarList, typeVars, typeArgs, i, start) == Ok(if assigns == null then None else Some(assigns.entries))
    {
      if i >= |typeVars| {
        MapArgsErrorSticks(typeVarList, typeVars, typeArgs, i + 1, |typeArgs|, start);
        return Some(IndexOutOfBounds);
      }
      var typeVar := typeVars[i];
      var typeArg := typeArgs[i];
      if typeArg.TVar? && typeArg.v in typeVarList {
        if assigns == null {
          MapArgsErrorSticks(typeVarList, typeVars, typeArgs, i + 1, |typeArgs|, start);
          return Some(NullPointer);
        }
        if typeVar in assigns.entries {
          assigns.entries := assigns.entries[typeArg.v := assigns.entries[typeVar]];
        }
      }
      i := i + 1;
    }
    failure := None;
  }

  lemma {:induction false} MapArgsErrorSticks(clsParams: seq<VarId>, typeVars: seq<VarId>, typeArgs: seq<Type>, k: nat, n: nat, m: Option<Assigns>)
    requires k <= n <= |typeArgs|
    requires MapArgs(clsParams, typeVars, typeArgs, k, m).Err?
    ensures MapArgs(clsParams, typeVars, typeArgs, n, m) == MapArgs(clsParams, typeVars, typeArgs, k, m)
  {
    if k < n {
      MapArgsErrorSticks(clsParams, typeVars, typeArgs, k, n - 1, m);
    }
  }

  /**
   * `determineTypeArguments`: the assignments of the type variables of `cls` (and of the
   * classes between it and the supertype) determined by the arguments of `superType`;
   * `null` when `cls` is not assignable to the supertype's raw class.
   */
  function DetermineTypeArguments(ct: ClassTable, cls: ClassId, superType: Type, fuel: nat): (r: Result<Option<Assigns>>)
    requires superType.Param?
    ensures !ClassToClass(ct, cls, superType.raw) ==> r == Ok(None)
    decreases fuel
  {
    var superClass := superType.raw;
    if !ClassToClass(ct, cls, superClass) then Ok(None)
    else if cls == superClass then ParameterizedTypeArguments(ct, superType, superClass, None, fuel)
    else match ClosestParentType(ct, cls, superClass)
      case Err(e) => Err(e)
      case Ok(None) => Err(NullPointer)
      case Ok(Some(midType)) =>
        if fuel == 0 then Err(OutOfFuel)
        else if midType.Cls? then DetermineTypeArguments(ct, midType.id, superType, fuel - 1)
        else if !midType.Param? then Err(ClassCast)
        else match DetermineTypeArguments(ct, midType.raw, superType, fuel - 1)
          case Err(e) => Err(e)
          case Ok(assigns) => MapVariables(ct, cls, midType, assigns)
  }

  /** A well-sized parameterized type fits the loop of `mapTypeVariablesToArguments`. */
  lemma {:induction false} WellSizedFits(ct: ClassTable, pt: Type)
    requires pt.Param? && WellSized(ct, pt)
    ensures ArityFits(ct, pt)
    decreases pt
  {
    if pt.owner.Some? && pt.owner.value.Param? {
      WellSizedFits(ct, pt.owner.value);
    }
  }

  /**
   * On a well-formed table, for a class that is not an array: when `determineTypeArguments`
   * returns, it returns `null` exactly when the class is not assignable to the supertype's raw
   * class.
   */
  lemma {:induction false} DetermineTypeArgumentsNullIff(ct: ClassTable, cls: ClassId, superType: Type, fuel: nat)
    requires ValidTable(ct) && superType.Param?
    requires !IsArrayClass(ct, cls) && !IsPrimitive(ct, superType.raw)
    ensures DetermineTypeArguments(ct, cls, superType, fuel).Ok? ==>
              (DetermineTypeArguments(ct, cls, superType, fuel).value.None? <==> !ClassToClass(ct, cls, superType.raw))
    decreases fuel
  {
    var superClass := superType.raw;
    if ClassToClass(ct, cls, superClass) {
      if cls == superClass {
        TypeArgumentsNullIff(ct, superType, superClass, None, fuel);
      } else if IsPrimitive(ct, cls) {
        PrimitiveHasNoParent(ct, cls, superClass);
      } else if fuel > 0 {
        var next := ClosestParentType(ct, cls, superClass);
        if next.Ok? && next.value.Some? {
          var mid := next.value.value;
          ClosestParentStaysAssignable(ct, cls, superClass, mid);
          DetermineTypeArgumentsNullIff(ct, RawClass(mid).value, superType, fuel - 1);
          var inner := DetermineTypeArguments(ct, RawClass(mid).value, superType, fuel - 1);
          if mid.Param? && inner.Ok? && inner.value.Some? {
            WellSizedFits(ct, mid);
            MapVariablesPropagates(ct, cls, mid, inner.value.value);
          }
        }
      }
    }
  }

  /* ---------------------------------------------------------------- what reaches a variable */

  /**
   * Type variable `v` of `cls` is handed on to parameter `i` of `superClass` within `fuel`
   * steps: at `superClass` itself `v` is its `i`-th parameter; below it, the parent type the
   * climb picks is parameterized, and the last of its arguments that is the bare variable `v`
   * stands at a position whose parameter is handed on in turn.
   */
  predicate PassesTo(ct: ClassTable, cls: ClassId, v: VarId, superClass: ClassId, i: nat, fuel: nat)
    decreases fuel
  {
    if cls == superClass then i < |TypeParams(ct, cls)| && TypeParams(ct, cls)[i] == v
    else
      && fuel > 0
      && v in TypeParams(ct, cls)
      && ClosestParentType(ct, cls, superClass).Ok?
      && ClosestParentType(ct, cls, superClass).value.Some?
      && var mid := ClosestParentType(ct, cls, superClass).value.value;
         && mid.Param?
         && exists j :: 0 <= j < |mid.args| && j < |TypeParams(ct, mid.raw)| && mid.args[j] == TVar(v) &&
              (forall l :: j < l < |mid.args| ==> mid.args[l] != TVar(v)) &&
              PassesTo(ct, mid.raw, TypeParams(ct, mid.raw)[j], superClass, i, fuel - 1)
  }

  /** The loop only ever consults a `null` map: it cannot produce a map from none. */
  lemma {:induction false} MapArgsWithoutMap(clsParams: seq<VarId>, typeVars: seq<VarId>, typeArgs: seq<Type>, n: nat)
    requires n <= |typeArgs|
    ensures MapArgs(clsParams, typeVars, typeArgs, n, None).Ok? ==> MapArgs(clsParams, typeVars, typeArgs, n, None) == Ok(None)
  {
    if n > 0 {
      MapArgsWithoutMap(clsParams, typeVars, typeArgs, n - 1);
    }
  }

  /** The same along the owner chain: a `null` map never becomes a map. */
  lemma {:induction false} MapVariablesWithoutMap(ct: ClassTable, cls: ClassId, pt: Type)
    requires pt.Param?
    ensures MapVariables(ct, cls, pt, None).Ok? ==> MapVariables(ct, cls, pt, None) == Ok(None)
    decreases pt
  {
    if pt.owner.Some? && pt.owner.value.Param? {
      MapVariablesWithoutMap(ct, cls, pt.owner.value);
    }
    MapArgsWithoutMap(TypeParams(ct, cls), TypeParams(ct, pt.raw), pt.args, |pt.args|);
  }

  /**
   * `determineTypeArguments` on a well-formed table: a variable of `cls` handed on to
   * parameter `i` of the supertype's class receives the supertype's argument `i`, when that
   * argument is not itself a variable.
   */
  lemma {:induction false} DetermineTypeArgumentsPassesArgument(ct: ClassTable, cls: ClassId, superType: Type, v: VarId, i: nat, fuel: nat)
    requires ValidTable(ct) && superType.Param?
    requires PassesTo(ct, cls, v, superType.raw, i, fuel)
    requires i < |superType.args| && !superType.args[i].TVar?
    ensures var r := DetermineTypeArguments(ct, cls, superType, fuel);
            r.Ok? && r.value.Some? ==> v in r.value.value && r.value.value[v] == superType.args[i]
    decreases fuel
  {
    var superClass := superType.raw;
    var r := DetermineTypeArguments(ct, cls, superType, fuel);
    if r.Ok? && r.value.Some? {
      if cls == superClass {
        ConcreteArgumentsBound(ct, superType, None, fuel);
      } else {
        var mid := ClosestParentType(ct, cls, superClass).value.value;
        var j :| 0 <= j < |mid.args| && j < |TypeParams(ct, mid.raw)| && mid.args[j] == TVar(v) &&
                 (forall l :: j < l < |mid.args| ==> mid.args[l] != TVar(v)) &&
                 PassesTo(ct, mid.raw, TypeParams(ct, mid.raw)[j], superClass, i, fuel - 1);
        var inner := DetermineTypeArguments(ct, mid.raw, superType, fuel - 1);
        assert r == match inner
                    case Err(e) => Err(e)
                    case Ok(assigns) => MapVariables(ct, cls, mid, assigns);
        MapVariablesWithoutMap(ct, cls, mid);
        var im := inner.value.value;
        DetermineTypeArgumentsPassesArgument(ct, mid.raw, superType, TypeParams(ct, mid.raw)[j], i, fuel - 1);
        MappedThroughParent(ct, cls, mid, im, j);
      }
    }
  }

  /**
   * The one-step case: when the parent type the climb picks is itself a parameterization of
   * the supertype's class (`class Box<T> implements Comparable<T>`, against
   * `Comparable<String>`), the variable named by its last bare-variable argument at position
   * `j` receives the supertype's argument `j`.
   */
  lemma DirectParentPassesArgument(ct: ClassTable, cls: ClassId, superType: Type, v: VarId, j: nat, fuel: nat)
    requires ValidTable(ct) && superType.Param? && fuel > 0 && cls != superType.raw
    requires ClosestParentType(ct, cls, superType.raw).Ok? && ClosestParentType(ct, cls, superType.raw).value.Some?
    requires var mid := ClosestParentType(ct, cls, superType.raw).value.value;
             && mid.Param? && mid.raw == superType.raw && v in TypeParams(ct, cls)
             && j < |mid.args| && j < |TypeParams(ct, mid.raw)| && mid.args[j] == TVar(v)
             && (forall l :: j < l < |mid.args| ==> mid.args[l] != TVar(v))
    requires j < |superType.args| && !superType.args[j].TVar?
    ensures var r := DetermineTypeArguments(ct, cls, superType, fuel);
            r.Ok? && r.value.Some? ==> v in r.value.value && r.value.value[v] == superType.args[j]
  {
    assert PassesTo(ct, superType.raw, TypeParams(ct, superType.raw)[j], superType.raw, j, fuel - 1);
    assert PassesTo(ct, cls, v, superType.raw, j, fuel);
    DetermineTypeArgumentsPassesArgument(ct, cls, superType, v, j, fuel);
  }

  /**
   * `mapTypeVariablesToArguments` for a parent type of `cls` on a well-formed table: a
   * variable of `cls` that is the last bare-variable argument at position `j` receives the
   * assignment of the parent class's parameter `j`.
   */
  lemma MappedThroughParent(ct: ClassTable, cls: ClassId, mid: Type, m: Assigns, j: nat)
    requires ValidTable(ct) && mid in DirectSupertypes(ct, cls) && mid.Param?
    requires j < |mid.args| && j < |TypeParams(ct, mid.raw)| && mid.args[j].TVar? && mid.args[j].v in TypeParams(ct, cls)
    requires forall l :: j < l < |mid.args| ==> mid.args[l] != mid.args[j]
    requires TypeParams(ct, mid.raw)[j] in m
    ensures var r := MapVariables(ct, cls, mid, Some(m));
            r.Ok? && r.value.Some? && mid.args[j].v in r.value.value &&
            r.value.value[mid.args[j].v] == m[TypeParams(ct, mid.raw)[j]]
  {
    var clsParams := TypeParams(ct, cls);
    var typeVars := TypeParams(ct, mid.raw);
    WellSizedFits(ct, mid);
    MapVariablesPropagates(ct, cls, mid, m);
    OwnersBelowOfSupertype(ct, cls, mid);
    forall k | 0 <= k < |typeVars|
      ensures typeVars[k] !in clsParams
    {
      assert VarDecl(ct, typeVars[k]) == Some(mid.raw);
      forall l | 0 <= l < |clsParams| ensures clsParams[l] != typeVars[k] {
        assert VarDecl(ct, clsParams[l]) == Some(cls);
      }
    }
    var m1 := m;
    if mid.owner.Some? && mid.owner.value.Param? {
      WellSizedFits(ct, mid.owner.value);
      MapVariablesPropagates(ct, cls, mid.owner.value, m);
      m1 := MapVariables(ct, cls, mid.owner.value, Some(m)).value.value;
    }
    MapArgsPositional(clsParams, typeVars, mid.args, |mid.args|, m1, j);
  }
}
