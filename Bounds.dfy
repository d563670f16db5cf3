/**
 * `normalizeUpperBounds` and the implicit bounds built on it: which bounds survive, and the
 * nested loop with its `subtypeFound` flag that computes them.
 */
module Bounds {
  import opened Wrappers
  import opened TypeModel
  import opened TypeUtils
  import Assignability

  /** No element occurs twice: the array made from a `HashSet`. */
  predicate NoDuplicates(s: seq<Type>) {
    forall i, j :: 0 <= i < j < |s| ==> s[i] != s[j]
  }

  /** The inner loop finds nothing exactly when no other bound is assignable to `x`. */
  lemma {:induction false} SubtypeFoundNone(ct: ClassTable, others: seq<Type>, x: Type, fuel: nat)
    ensures SubtypeFound(ct, others, x, fuel) == Ok(false) <==>
              forall i :: 0 <= i < |others| && others[i] != x ==>
                IsAssignable(ct, Some(others[i]), Some(x), None, fuel) == Ok(false)
    decreases |others|
  {
    if others != [] {
      var rest := others[1..];
      SubtypeFoundNone(ct, rest, x, fuel);
      assert forall i :: 0 < i < |others| ==> others[i] == rest[i - 1];
      assert forall i :: 0 <= i < |rest| ==> rest[i] == others[i + 1];
    }
  }

  /** Once a round of the outer loop fails, the whole loop fails the same way. */
  lemma {:induction false} KeepUnsubsumedErrorSticks(ct: ClassTable, bounds: seq<Type>, k: nat, n: nat, fuel: nat)
    requires k <= n <= |bounds|
    requires KeepUnsubsumed(ct, bounds, k, fuel).Err?
    ensures KeepUnsubsumed(ct, bounds, n, fuel) == KeepUnsubsumed(ct, bounds, k, fuel)
  {
    if k < n {
      KeepUnsubsumedErrorSticks(ct, bounds, k, n - 1, fuel);
    }
  }

  /**
   * After visiting `bounds[..n]` the kept set holds, once each, exactly the visited bounds
   * to which no other bound is assignable.
   */
  lemma {:induction false} KeepUnsubsumedMembers(ct: ClassTable, bounds: seq<Type>, n: nat, fuel: nat)
    requires n <= |bounds|
    ensures KeepUnsubsumed(ct, bounds, n, fuel).Ok? ==>
              NoDuplicates(KeepUnsubsumed(ct, bounds, n, fuel).value) &&
              forall x :: x in KeepUnsubsumed(ct, bounds, n, fuel).value <==>
                x in bounds[..n] && SubtypeFound(ct, bounds, x, fuel) == Ok(false)
  {
    if n > 0 {
      KeepUnsubsumedMembers(ct, bounds, n - 1, fuel);
      assert bounds[..n] == bounds[..n - 1] + [bounds[n - 1]];
    }
  }

  /**
   * `normalizeUpperBounds`: fewer than two bounds come back unchanged; otherwise the result
   * is a duplicate-free subset of the bounds holding exactly those to which no other listed
   * bound is assignable.
   */
  lemma NormalizeUpperBoundsKeeps(ct: ClassTable, bounds: seq<Type>, fuel: nat)
    ensures |bounds| < 2 ==> NormalizeUpperBounds(ct, bounds, fuel) == Ok(bounds)
    ensures |bounds| >= 2 && NormalizeUpperBounds(ct, bounds, fuel).Ok? ==>
              NoDuplicates(NormalizeUpperBounds(ct, bounds, fuel).value) &&
              forall x :: x in NormalizeUpperBounds(ct, bounds, fuel).value <==>
                x in bounds &&
                forall y :: y in bounds && y != x ==> IsAssignable(ct, Some(y), Some(x), None, fuel) == Ok(false)
  {
    if |bounds| >= 2 {
      KeepUnsubsumedMembers(ct, bounds, |bounds|, fuel);
      assert bounds[..|bounds|] == bounds;
      forall x {
        SubtypeFoundNone(ct, bounds, x, fuel);
      }
    }
  }

  /**
   * `getImplicitBounds` and `getImplicitUpperBounds`: `{Object}` when nothing is declared, the
   * declared bound itself when there is one, and otherwise the normalised bounds, all of
   * which are declared ones.
   */
  lemma ImplicitBoundsShape(ct: ClassTable, v: VarId, w: Type, fuel: nat)
    requires w.Wild?
    ensures |DeclaredBounds(ct, v)| == 0 ==> ImplicitBounds(ct, v, fuel) == Ok([Cls(ct.objectClass)])
    ensures |DeclaredBounds(ct, v)| == 1 ==> ImplicitBounds(ct, v, fuel) == Ok(DeclaredBounds(ct, v))
    ensures ImplicitBounds(ct, v, fuel).Ok? && |DeclaredBounds(ct, v)| > 0 ==>
              forall x :: x in ImplicitBounds(ct, v, fuel).value ==> x in DeclaredBounds(ct, v)
    ensures |w.upper| == 0 ==> ImplicitUpperBounds(ct, w, fuel) == Ok([Cls(ct.objectClass)])
    ensures |w.upper| == 1 ==> ImplicitUpperBounds(ct, w, fuel) == Ok(w.upper)
    ensures ImplicitUpperBounds(ct, w, fuel).Ok? && |w.upper| > 0 ==>
              forall x :: x in ImplicitUpperBounds(ct, w, fuel).value ==> x in w.upper
  {
    NormalizeUpperBoundsKeeps(ct, DeclaredBounds(ct, v), fuel);
    NormalizeUpperBoundsKeeps(ct, w.upper, fuel);
  }

  /**
   * Two bounds that are assignable to each other both count as redundant: a raw class and a
   * parameterization of it normalise to no bound at all.
   */
  lemma RawAndParameterizedBoundsVanish(ct: ClassTable, c: ClassId, args: seq<Type>, fuel: nat)
    requires !IsPrimitive(ct, c) && fuel > 0
    ensures NormalizeUpperBounds(ct, [Cls(c), Param(c, None, args)], fuel) == Ok([])
  {
    var bounds := [Cls(c), Param(c, None, args)];
    Assignability.RawToParameterized(ct, c, None, args, None, fuel);
    assert IsAssignable(ct, Some(bounds[1]), Some(bounds[0]), None, fuel) == Ok(true);
    assert SubtypeFound(ct, bounds, bounds[0], fuel) == Ok(true);
    assert SubtypeFound(ct, bounds[1..], bounds[1], fuel) == Ok(false) by {
      assert bounds[1..][1..] == [];
    }
    assert SubtypeFound(ct, bounds, bounds[1], fuel) == Ok(true);
    assert KeepUnsubsumed(ct, bounds, 1, fuel) == Ok([]);
  }

  /** The nested loop of `normalizeUpperBounds`, adding each bound no other one is assignable to. */
  method NormalizeUpperBoundsLoop(ct: ClassTable, bounds: seq<Type>, fuel: nat) returns (r: Result<seq<Type>>)
    ensures r == NormalizeUpperBounds(ct, bounds, fuel)
  {
    if |bounds| < 2 {
      return Ok(bounds);
    }
    var types: seq<Type> := [];
    var i := 0;
    while i < |bounds|
      invariant 0 <= i <= |bounds|
      invariant KeepUnsubsumed(ct, bounds, i, fuel) == Ok(types)
    {
      var type1 := bounds[i];
      var subtypeFound := false;
      var j := 0;
      while j < |bounds| && !subtypeFound
        invariant 0 <= j <= |bounds|
        invariant SubtypeFound(ct, bounds, type1, fuel) ==
                    if subtypeFound then Ok(true) else SubtypeFound(ct, bounds[j..], type1, fuel)
      {
        var type2 := bounds[j];
        assert bounds[j..][1..] == bounds[j + 1..];
        if type1 != type2 {
          var assignable := IsAssignable(ct, Some(type2), Some(type1), None, fuel);
          if assignable.Err? {
            KeepUnsubsumedErrorSticks(ct, bounds, i + 1, |bounds|, fuel);
            return Err(assignable.failure);
          }
          subtypeFound := assignable.value;
        }
        j := j + 1;
      }
      if !subtypeFound {
        types := if type1 in types then types else types + [type1];
      }
      i := i + 1;
    }
    r := Ok(types);
  }
}
