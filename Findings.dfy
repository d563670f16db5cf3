/**
 * `isAssignable(Type, TypeVariable, Map)` as written: when the source is a type variable none
 * of whose bounds is assignable to the target variable, the loop ends without returning and
 * control reaches the final `throw`, because the `instanceof` test that follows does not list
 * `TypeVariable`. The rest of the model uses the corrected `TypeUtils.AssignableToVariable`,
 * which answers `false` there.
 */
module Findings {
  import opened Wrappers
  import opened TypeModel
  import opened TypeUtils

  /** The target-variable overload exactly as written. */
  function AssignableToVariableAsWritten(ct: ClassTable, t: Option<Type>, toV: VarId, m: Option<Assigns>, fuel: nat): (r: Result<bool>)
    ensures t.Some? && t.value.TVar? && t.value.v != toV && r.Ok? ==> r == Ok(true)
  {
    if t.None? then Ok(true)
    else if t.value == TVar(toV) then Ok(true)
    else if !t.value.TVar? then Ok(false)
    else if fuel == 0 then Err(OutOfFuel)
    else match ImplicitBounds(ct, t.value.v, fuel - 1)
      case Err(e) => Err(e)
      case Ok(bounds) =>
        match AnyAssignable(ct, bounds, TVar(toV), m, fuel - 1)
        case Ok(true) => Ok(true)
        case Ok(false) => Err(IllegalState)
        case Err(e) => Err(e)
  }

  /**
   * Two distinct unbounded type variables (reflection reports the single bound `Object` for
   * each): that bound of the first is not assignable to the second, so the code as written
   * throws where the corrected overload answers `false`.
   */
  lemma UnrelatedVariablesThrow(ct: ClassTable, a: VarId, b: VarId, m: Option<Assigns>)
    requires a != b && DeclaredBounds(ct, a) == [Cls(ct.objectClass)]
    ensures AssignableToVariableAsWritten(ct, Some(TVar(a)), b, m, 1) == Err(IllegalState)
    ensures AssignableToVariable(ct, Some(TVar(a)), b, m, 1) == Ok(false)
  {
    var bounds := [Cls(ct.objectClass)];
    assert ImplicitBounds(ct, a, 0) == Ok(bounds);
    assert IsAssignable(ct, Some(bounds[0]), Some(TVar(b)), m, 0) == Ok(false);
    assert AnyAssignable(ct, bounds[1..], TVar(b), m, 0) == Ok(false);
    assert AnyAssignable(ct, bounds, TVar(b), m, 0) == Ok(false);
  }
}
