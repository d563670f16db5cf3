/**
 * What the `isAssignable` family decides: the early-return loops are existential and
 * universal scans, and each target shape keeps the rules its documentation states.
 */
module Assignability {
  import opened Wrappers
  import opened TypeModel
  import opened Variables
  import opened TypeUtils

  /* ---------------------------------------------------------------- the scans */

  /**
   * The loop over a variable's bounds against a class: `true` only through some bound that
   * is assignable, and, when no bound fails, exactly "some bound is assignable".
   */
  lemma {:induction false} AnyBoundToClassExists(ct: ClassTable, bounds: seq<Type>, to: ClassId, fuel: nat)
    ensures AnyBoundToClass(ct, bounds, to, fuel) == Ok(true) ==>
              exists i :: 0 <= i < |bounds| && AssignableToClass(ct, Some(bounds[i]), Some(to), fuel) == Ok(true)
    ensures (forall i :: 0 <= i < |bounds| ==> AssignableToClass(ct, Some(bounds[i]), Some(to), fuel).Ok?) ==>
              AnyBoundToClass(ct, bounds, to, fuel) ==
                Ok(exists i :: 0 <= i < |bounds| && AssignableToClass(ct, Some(bounds[i]), Some(to), fuel) == Ok(true))
    decreases |bounds|
  {
    if bounds != [] {
      var rest := bounds[1..];
      AnyBoundToClassExists(ct, rest, to, fuel);
      assert forall i :: 0 <= i < |rest| ==> rest[i] == bounds[i + 1];
      if AnyBoundToClass(ct, rest, to, fuel) == Ok(true) && AssignableToClass(ct, Some(bounds[0]), Some(to), fuel) == Ok(false) {
        var i :| 0 <= i < |rest| && AssignableToClass(ct, Some(rest[i]), Some(to), fuel) == Ok(true);
        assert AssignableToClass(ct, Some(bounds[i + 1]), Some(to), fuel) == Ok(true);
      }
      if exists i :: 0 <= i < |bounds| && AssignableToClass(ct, Some(bounds[i]), Some(to), fuel) == Ok(true) {
        var i :| 0 <= i < |bounds| && AssignableToClass(ct, Some(bounds[i]), Some(to), fuel) == Ok(true);
        if i > 0 {
          assert AssignableToClass(ct, Some(rest[i - 1]), Some(to), fuel) == Ok(true);
        }
      }
    }
  }

  /** The loops over the bounds of a source variable or wildcard: the same, against any target. */
  lemma {:induction false} AnyAssignableExists(ct: ClassTable, srcs: seq<Type>, to: Type, m: Option<Assigns>, fuel: nat)
    ensures AnyAssignable(ct, srcs, to, m, fuel) == Ok(true) ==>
              exists i :: 0 <= i < |srcs| && IsAssignable(ct, Some(srcs[i]), Some(to), m, fuel) == Ok(true)
    ensures (forall i :: 0 <= i < |srcs| ==> IsAssignable(ct, Some(srcs[i]), Some(to), m, fuel).Ok?) ==>
              AnyAssignable(ct, srcs, to, m, fuel) ==
                Ok(exists i :: 0 <= i < |srcs| && IsAssignable(ct, Some(srcs[i]), Some(to), m, fuel) == Ok(true))
    decreases |srcs|
  {
    if srcs != [] {
      var rest := srcs[1..];
      AnyAssignableExists(ct, rest, to, m, fuel);
      assert forall i :: 0 <= i < |rest| ==> rest[i] == srcs[i + 1];
      if AnyAssignable(ct, rest, to, m, fuel) == Ok(true) && IsAssignable(ct, Some(srcs[0]), Some(to), m, fuel) == Ok(false) {
        var i :| 0 <= i < |rest| && IsAssignable(ct, Some(rest[i]), Some(to), m, fuel) == Ok(true);
        assert IsAssignable(ct, Some(srcs[i + 1]), Some(to), m, fuel) == Ok(true);
      }
      if exists i :: 0 <= i < |srcs| && IsAssignable(ct, Some(srcs[i]), Some(to), m, fuel) == Ok(true) {
        var i :| 0 <= i < |srcs| && IsAssignable(ct, Some(srcs[i]), Some(to), m, fuel) == Ok(true);
        if i > 0 {
          assert IsAssignable(ct, Some(rest[i - 1]), Some(to), m, fuel) == Ok(true);
        }
      }
    }
  }

  /** The inner loop over a source wildcard's upper bounds: every one must be assignable. */
  lemma {:induction false} AllToBoundForall(ct: ClassTable, srcs: seq<Option<Type>>, dst: Option<Type>, m: Option<Assigns>, fuel: nat)
    ensures AllToBound(ct, srcs, dst, m, fuel) == Ok(true) ==>
              forall i :: 0 <= i < |srcs| ==> IsAssignable(ct, srcs[i], dst, m, fuel) == Ok(true)
    ensures (forall i :: 0 <= i < |srcs| ==> IsAssignable(ct, srcs[i], dst, m, fuel).Ok?) ==>
              AllToBound(ct, srcs, dst, m, fuel) ==
                Ok(forall i :: 0 <= i < |srcs| ==> IsAssignable(ct, srcs[i], dst, m, fuel) == Ok(true))
    decreases |srcs|
  {
    if srcs != [] {
      var rest := srcs[1..];
      AllToBoundForall(ct, rest, dst, m, fuel);
      assert forall i :: 0 <= i < |rest| ==> rest[i] == srcs[i + 1];
      if AllToBound(ct, srcs, dst, m, fuel) == Ok(true) {
        assert forall i :: 0 < i < |srcs| ==> srcs[i] == rest[i - 1];
      }
      if !(forall i :: 0 <= i < |srcs| ==> IsAssignable(ct, srcs[i], dst, m, fuel) == Ok(true)) {
        var i :| 0 <= i < |srcs| && IsAssignable(ct, srcs[i], dst, m, fuel) != Ok(true);
        if i > 0 {
          assert IsAssignable(ct, rest[i - 1], dst, m, fuel) != Ok(true);
        }
      }
    }
  }

  /** The inner loop over a source wildcard's lower bounds: each must receive the target bound. */
  lemma {:induction false} BoundToAllForall(ct: ClassTable, src: Option<Type>, dsts: seq<Option<Type>>, m: Option<Assigns>, fuel: nat)
    ensures BoundToAll(ct, src, dsts, m, fuel) == Ok(true) ==>
              forall i :: 0 <= i < |dsts| ==> IsAssignable(ct, src, dsts[i], m, fuel) == Ok(true)
    ensures (forall i :: 0 <= i < |dsts| ==> IsAssignable(ct, src, dsts[i], m, fuel).Ok?) ==>
              BoundToAll(ct, src, dsts, m, fuel) ==
                Ok(forall i :: 0 <= i < |dsts| ==> IsAssignable(ct, src, dsts[i], m, fuel) == Ok(true))
    decreases |dsts|
  {
    if dsts != [] {
      var rest := dsts[1..];
      BoundToAllForall(ct, src, rest, m, fuel);
      assert forall i :: 0 <= i < |rest| ==> rest[i] == dsts[i + 1];
      if BoundToAll(ct, src, dsts, m, fuel) == Ok(true) {
        assert forall i :: 0 < i < |dsts| ==> dsts[i] == rest[i - 1];
      }
      if !(forall i :: 0 <= i < |dsts| ==> IsAssignable(ct, src, dsts[i], m, fuel) == Ok(true)) {
        var i :| 0 <= i < |dsts| && IsAssignable(ct, src, dsts[i], m, fuel) != Ok(true);
        if i > 0 {
          assert IsAssignable(ct, src, rest[i - 1], m, fuel) != Ok(true);
        }
      }
    }
  }

  /* ---------------------------------------------------------------- parameterized targets */

  /**
   * One round of the loop over the target's type variables lets the scan go on: both
   * unrollings end, and the source's argument is absent, is a class paired with an absent
   * target argument, equals the target's argument, or lies within the target's wildcard.
   */
  predicate ArgumentCompatible(ct: ClassTable, toMap: Assigns, fromMap: Assigns, v: VarId, m: Option<Assigns>, fuel: nat) {
    && Unroll(toMap, v, {}).Ok?
    && Unroll(fromMap, v, {}).Ok?
    && var toArg := Unroll(toMap, v, {}).value;
       var fromArg := Unroll(fromMap, v, {}).value;
       || (toArg.None? && fromArg.Some? && fromArg.value.Cls?)
       || fromArg.None?
       || (toArg.Some? && (toArg == fromArg || (toArg.value.Wild? && IsAssignable(ct, fromArg, toArg, m, fuel) == Ok(true))))
  }

  /** The loop succeeds exactly when every variable it visits is compatible. */
  lemma {:induction false} ArgumentsCompatibleForall(ct: ClassTable, toMap: Assigns, fromMap: Assigns, keys: set<VarId>, m: Option<Assigns>, fuel: nat)
    ensures ArgumentsCompatible(ct, toMap, fromMap, keys, m, fuel) == Ok(true) <==>
              forall v :: v in keys ==> ArgumentCompatible(ct, toMap, fromMap, v, m, fuel)
    decreases |keys|
  {
    if keys != {} {
      var v := MinVar(keys);
      ArgumentsCompatibleForall(ct, toMap, fromMap, keys - {v}, m, fuel);
      if ArgumentCompatible(ct, toMap, fromMap, v, m, fuel) {
        assert ArgumentsCompatible(ct, toMap, fromMap, keys, m, fuel) == ArgumentsCompatible(ct, toMap, fromMap, keys - {v}, m, fuel);
      } else {
        assert ArgumentsCompatible(ct, toMap, fromMap, keys, m, fuel) != Ok(true);
      }
    }
  }

  /**
   * The parameterized target: a source not assignable to its raw class is rejected, one
   * whose resolved map is empty is accepted (raw types are assignable to parameterized
   * ones), and otherwise the answer is "every variable of the target is compatible".
   */
  lemma ParameterizedTarget(ct: ClassTable, t: Type, to: Type, m: Option<Assigns>, fuel: nat)
    requires to.Param? && t != to && fuel > 0
    ensures TypeArguments(ct, Some(t), to.raw, None, fuel - 1) == Ok(None) ==>
              IsAssignable(ct, Some(t), Some(to), m, fuel) == Ok(false)
    ensures TypeArguments(ct, Some(t), to.raw, None, fuel - 1) == Ok(Some(map[])) ==>
              IsAssignable(ct, Some(t), Some(to), m, fuel) == Ok(true)
    ensures forall fromMap, toMap ::
              TypeArguments(ct, Some(t), to.raw, None, fuel - 1) == Ok(Some(fromMap)) && |fromMap| > 0 &&
              ParameterizedTypeArguments(ct, to, to.raw, m, fuel - 1) == Ok(Some(toMap)) ==>
                (IsAssignable(ct, Some(t), Some(to), m, fuel) == Ok(true) <==>
                   forall v :: v in toMap ==> ArgumentCompatible(ct, toMap, fromMap, v, m, fuel - 1))
  {
    var r := IsAssignable(ct, Some(t), Some(to), m, fuel);
    assert r == AssignableToParameterized(ct, Some(t), to, m, fuel);
    forall fromMap, toMap |
      TypeArguments(ct, Some(t), to.raw, None, fuel - 1) == Ok(Some(fromMap)) && |fromMap| > 0 &&
      ParameterizedTypeArguments(ct, to, to.raw, m, fuel - 1) == Ok(Some(toMap))
      ensures r == Ok(true) <==> forall v :: v in toMap ==> ArgumentCompatible(ct, toMap, fromMap, v, m, fuel - 1)
    {
      assert r == ArgumentsCompatible(ct, toMap, fromMap, toMap.Keys, m, fuel - 1);
      ArgumentsCompatibleForall(ct, toMap, fromMap, toMap.Keys, m, fuel - 1);
    }
  }

  /** A raw reference class is assignable to any parameterization of itself. */
  lemma RawToParameterized(ct: ClassTable, c: ClassId, owner: Option<Type>, args: seq<Type>, m: Option<Assigns>, fuel: nat)
    requires !IsPrimitive(ct, c) && fuel > 0
    ensures IsAssignable(ct, Some(Cls(c)), Some(Param(c, owner, args)), m, fuel) == Ok(true)
  {
    assert ClassTypeArguments(ct, c, c, None, fuel - 1) == Ok(Some(map[]));
    ParameterizedTarget(ct, Cls(c), Param(c, owner, args), m, fuel);
  }

  /* ---------------------------------------------------------------- variable targets */

  /**
   * A type variable is assignable to a different one exactly when one of its implicit bounds
   * is (when none of those checks fails).
   */
  lemma VariableToVariable(ct: ClassTable, a: VarId, b: VarId, m: Option<Assigns>, fuel: nat)
    requires a != b && fuel > 0
    ensures ImplicitBounds(ct, a, fuel - 1).Err? ==>
              IsAssignable(ct, Some(TVar(a)), Some(TVar(b)), m, fuel) == Err(ImplicitBounds(ct, a, fuel - 1).failure)
    ensures forall bounds ::
              ImplicitBounds(ct, a, fuel - 1) == Ok(bounds) &&
              (forall i :: 0 <= i < |bounds| ==> IsAssignable(ct, Some(bounds[i]), Some(TVar(b)), m, fuel - 1).Ok?) ==>
                IsAssignable(ct, Some(TVar(a)), Some(TVar(b)), m, fuel) ==
                  Ok(exists i :: 0 <= i < |bounds| && IsAssignable(ct, Some(bounds[i]), Some(TVar(b)), m, fuel - 1) == Ok(true))
  {
    forall bounds | ImplicitBounds(ct, a, fuel - 1) == Ok(bounds)
      ensures (forall i :: 0 <= i < |bounds| ==> IsAssignable(ct, Some(bounds[i]), Some(TVar(b)), m, fuel - 1).Ok?) ==>
                IsAssignable(ct, Some(TVar(a)), Some(TVar(b)), m, fuel) ==
                  Ok(exists i :: 0 <= i < |bounds| && IsAssignable(ct, Some(bounds[i]), Some(TVar(b)), m, fuel - 1) == Ok(true))
    {
      AnyAssignableExists(ct, bounds, TVar(b), m, fuel - 1);
    }
  }

  /* ---------------------------------------------------------------- wildcard targets */

  /** The loop over the target's upper bounds: each, substituted, receives every source. */
  lemma {:induction false} UpperBoundsCheckForall(ct: ClassTable, toBounds: seq<Type>, srcs: seq<Option<Type>>, m: Option<Assigns>, fuel: nat)
    ensures UpperBoundsCheck(ct, toBounds, srcs, m, fuel) == Ok(true) <==>
              forall k :: 0 <= k < |toBounds| ==>
                Substitute(Some(toBounds[k]), m).Ok? &&
                AllToBound(ct, srcs, Substitute(Some(toBounds[k]), m).value, m, fuel) == Ok(true)
    decreases |toBounds|
  {
    if toBounds != [] {
      var rest := toBounds[1..];
      UpperBoundsCheckForall(ct, rest, srcs, m, fuel);
      assert forall k :: 0 < k < |toBounds| ==> toBounds[k] == rest[k - 1];
      assert forall k :: 0 <= k < |rest| ==> rest[k] == toBounds[k + 1];
    }
  }

  /** The loop over the target's lower bounds: each, substituted, goes to every destination. */
  lemma {:induction false} LowerBoundsCheckForall(ct: ClassTable, toBounds: seq<Option<Type>>, dsts: seq<Option<Type>>, m: Option<Assigns>, fuel: nat)
    ensures LowerBoundsCheck(ct, toBounds, dsts, m, fuel) == Ok(true) <==>
              forall k :: 0 <= k < |toBounds| ==>
                Substitute(toBounds[k], m).Ok? &&
                BoundToAll(ct, Substitute(toBounds[k], m).value, dsts, m, fuel) == Ok(true)
    decreases |toBounds|
  {
    if toBounds != [] {
      var rest := toBounds[1..];
      LowerBoundsCheckForall(ct, rest, dsts, m, fuel);
      assert forall k :: 0 < k < |toBounds| ==> toBounds[k] == rest[k - 1];
      assert forall k :: 0 <= k < |rest| ==> rest[k] == toBounds[k + 1];
    }
  }

  lemma SingleSource(ct: ClassTable, t: Option<Type>, d: Option<Type>, m: Option<Assigns>, fuel: nat)
    ensures AllToBound(ct, [t], d, m, fuel) == Ok(true) <==> IsAssignable(ct, t, d, m, fuel) == Ok(true)
    ensures BoundToAll(ct, d, [t], m, fuel) == Ok(true) <==> IsAssignable(ct, d, t, m, fuel) == Ok(true)
  {
    assert [t][1..] == [];
  }

  /**
   * A type that is not a wildcard is assignable to a wildcard exactly when it is assignable to
   * each of the wildcard's implicit upper bounds and each implicit lower bound is assignable
   * to it, the bounds' variables being substituted from the map.
   */
  lemma WithinWildcard(ct: ClassTable, t: Type, to: Type, m: Option<Assigns>, fuel: nat, toUpper: seq<Type>)
    requires to.Wild? && !t.Wild? && fuel > 0
    requires ImplicitUpperBounds(ct, to, fuel - 1) == Ok(toUpper)
    ensures IsAssignable(ct, Some(t), Some(to), m, fuel) == Ok(true) <==>
              (forall k :: 0 <= k < |toUpper| ==>
                 Substitute(Some(toUpper[k]), m).Ok? &&
                 IsAssignable(ct, Some(t), Substitute(Some(toUpper[k]), m).value, m, fuel - 1) == Ok(true)) &&
              (forall k :: 0 <= k < |ImplicitLowerBounds(to)| ==>
                 Substitute(ImplicitLowerBounds(to)[k], m).Ok? &&
                 IsAssignable(ct, Substitute(ImplicitLowerBounds(to)[k], m).value, Some(t), m, fuel - 1) == Ok(true))
  {
    var toLower := ImplicitLowerBounds(to);
    assert IsAssignable(ct, Some(t), Some(to), m, fuel) ==
           match UpperBoundsCheck(ct, toUpper, [Some(t)], m, fuel - 1)
           case Ok(true) => LowerBoundsCheck(ct, toLower, [Some(t)], m, fuel - 1)
           case other => other;
    UpperBoundsCheckForall(ct, toUpper, [Some(t)], m, fuel - 1);
    LowerBoundsCheckForall(ct, toLower, [Some(t)], m, fuel - 1);
    forall k | 0 <= k < |toUpper| && Substitute(Some(toUpper[k]), m).Ok?
      ensures AllToBound(ct, [Some(t)], Substitute(Some(toUpper[k]), m).value, m, fuel - 1) == Ok(true) <==>
              IsAssignable(ct, Some(t), Substitute(Some(toUpper[k]), m).value, m, fuel - 1) == Ok(true)
    {
      SingleSource(ct, Some(t), Substitute(Some(toUpper[k]), m).value, m, fuel - 1);
    }
    forall k | 0 <= k < |toLower| && Substitute(toLower[k], m).Ok?
      ensures BoundToAll(ct, Substitute(toLower[k], m).value, [Some(t)], m, fuel - 1) == Ok(true) <==>
              IsAssignable(ct, Substitute(toLower[k], m).value, Some(t), m, fuel - 1) == Ok(true)
    {
      SingleSource(ct, Some(t), Substitute(toLower[k], m).value, m, fuel - 1);
    }
  }

  /** Every source upper bound is assignable to every target upper bound, each substituted first. */
  predicate UpperBoundsAdmit(ct: ClassTable, toUpper: seq<Type>, upper: seq<Type>, m: Option<Assigns>, fuel: nat) {
    && (forall k :: 0 <= k < |toUpper| ==> Substitute(Some(toUpper[k]), m).Ok?)
    && forall k, i :: 0 <= k < |toUpper| && 0 <= i < |upper| ==>
         Substitute(Some(toUpper[k]), m).Ok? &&
         IsAssignable(ct, Some(upper[i]), Substitute(Some(toUpper[k]), m).value, m, fuel) == Ok(true)
  }

  /** Every target lower bound, substituted first, is assignable to every source lower bound. */
  predicate LowerBoundsAdmit(ct: ClassTable, toLower: seq<Option<Type>>, lower: seq<Option<Type>>, m: Option<Assigns>, fuel: nat) {
    && (forall k :: 0 <= k < |toLower| ==> Substitute(toLower[k], m).Ok?)
    && forall k, i :: 0 <= k < |toLower| && 0 <= i < |lower| ==>
         Substitute(toLower[k], m).Ok? &&
         IsAssignable(ct, Substitute(toLower[k], m).value, lower[i], m, fuel) == Ok(true)
  }

  /**
   * A wildcard is assignable to a different wildcard exactly when each of its upper bounds is
   * assignable to each (substituted) upper bound of the target, and each (substituted) lower
   * bound of the target is assignable to each of its lower bounds.
   */
  lemma WildcardWithinWildcard(ct: ClassTable, w: Type, to: Type, m: Option<Assigns>, fuel: nat, toUpper: seq<Type>, upper: seq<Type>)
    requires to.Wild? && w.Wild? && w != to && fuel > 0
    requires ImplicitUpperBounds(ct, to, fuel - 1) == Ok(toUpper)
    requires ImplicitUpperBounds(ct, w, fuel - 1) == Ok(upper)
    ensures IsAssignable(ct, Some(w), Some(to), m, fuel) == Ok(true) <==>
              && UpperBoundsAdmit(ct, toUpper, upper, m, fuel - 1)
              && LowerBoundsAdmit(ct, ImplicitLowerBounds(to), ImplicitLowerBounds(w), m, fuel - 1)
  {
    var toLower := ImplicitLowerBounds(to);
    var lower := ImplicitLowerBounds(w);
    assert IsAssignable(ct, Some(w), Some(to), m, fuel) == AssignableToWildcard(ct, Some(w), to, m, fuel);
    assert AssignableToWildcard(ct, Some(w), to, m, fuel) ==
             match UpperBoundsCheck(ct, toUpper, Lift(upper), m, fuel - 1)
             case Ok(true) => LowerBoundsCheck(ct, toLower, lower, m, fuel - 1)
             case other => other;
    WildcardUpperBounds(ct, toUpper, upper, m, fuel - 1);
    WildcardLowerBounds(ct, toLower, lower, m, fuel - 1);
  }

  /** The upper-bound half of a wildcard-to-wildcard check, as a statement about every pair of bounds. */
  lemma WildcardUpperBounds(ct: ClassTable, toUpper: seq<Type>, upper: seq<Type>, m: Option<Assigns>, fuel: nat)
    ensures UpperBoundsCheck(ct, toUpper, Lift(upper), m, fuel) == Ok(true) <==> UpperBoundsAdmit(ct, toUpper, upper, m, fuel)
  {
    var srcs := Lift(upper);
    UpperBoundsCheckForall(ct, toUpper, srcs, m, fuel);
    forall k | 0 <= k < |toUpper| && Substitute(Some(toUpper[k]), m).Ok? {
      AllToBoundForall(ct, srcs, Substitute(Some(toUpper[k]), m).value, m, fuel);
    }
  }

  /** The lower-bound half of a wildcard-to-wildcard check, as a statement about every pair of bounds. */
  lemma WildcardLowerBounds(ct: ClassTable, toLower: seq<Option<Type>>, lower: seq<Option<Type>>, m: Option<Assigns>, fuel: nat)
    ensures LowerBoundsCheck(ct, toLower, lower, m, fuel) == Ok(true) <==> LowerBoundsAdmit(ct, toLower, lower, m, fuel)
  {
    LowerBoundsCheckForall(ct, toLower, lower, m, fuel);
    forall k | 0 <= k < |toLower| && Substitute(toLower[k], m).Ok? {
      BoundToAllForall(ct, Substitute(toLower[k], m).value, lower, m, fuel);
    }
  }
}
