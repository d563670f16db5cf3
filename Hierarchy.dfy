/**
 * `getClosestParentType`: the one supertype through which the type-argument walk climbs
 * from a class towards a target class.
 */
module Hierarchy {
  import opened Wrappers
  import opened TypeModel

  /**
   * `isAssignable(genericInterface, (Type) midClass)` for the candidate kept so far, which is
   * `null` or a class or parameterized type: `null` goes to any reference class, a type goes
   * where its class goes.
   */
  predicate RawAssignable(ct: ClassTable, g: Option<Type>, c: ClassId) {
    match g
    case None => !IsPrimitive(ct, c)
    case Some(x) => RawClass(x).Some? && ClassToClass(ct, RawClass(x).value, c)
  }

  /** The candidate after the first `n` rounds of the scan over the generic interfaces. */
  function BestInterface(ct: ClassTable, ifs: seq<Type>, superClass: ClassId, n: nat): (r: Result<Option<Type>>)
    requires n <= |ifs|
    // an interface that is neither a class nor a parameterized type fails the scan
    ensures n > 0 && !(ifs[n - 1].Cls? || ifs[n - 1].Param?) ==> r.Err?
  {
    if n == 0 then Ok(None)
    else match BestInterface(ct, ifs, superClass, n - 1)
      case Err(e) => Err(e)
      case Ok(g) =>
        var mid := ifs[n - 1];
        if !(mid.Cls? || mid.Param?) then Err(IllegalState)
        else if ClassToClass(ct, RawClass(mid).value, superClass) && RawAssignable(ct, g, RawClass(mid).value)
        then Ok(Some(mid))
        else Ok(g)
  }

  /** A candidate is one of the scanned interfaces, and its class is assignable to the target. */
  predicate Candidate(ct: ClassTable, ifs: seq<Type>, superClass: ClassId, n: nat, g: Type)
    requires n <= |ifs|
  {
    g in ifs[..n] && RawClass(g).Some? && ClassToClass(ct, RawClass(g).value, superClass)
  }

  /** A generic interface the scan may pick: a (parameterized) reference class assignable to the target. */
  predicate Qualifies(ct: ClassTable, t: Type, superClass: ClassId) {
    RawClass(t).Some? && !IsPrimitive(ct, RawClass(t).value) && ClassToClass(ct, RawClass(t).value, superClass)
  }

  /**
   * The selection rule: `g`, picked at position `k`, is kept through round `n` because no
   * later interface assignable to the target has a class that `g` is assignable to (one that
   * did would replace it, being nearer to the target).
   */
  predicate Survives(ct: ClassTable, ifs: seq<Type>, superClass: ClassId, n: nat, k: nat, g: Type)
    requires k < n <= |ifs|
  {
    && ifs[k] == g
    && forall j :: k < j < n && RawClass(ifs[j]).Some? ==>
         !(ClassToClass(ct, RawClass(ifs[j]).value, superClass) && RawAssignable(ct, Some(g), RawClass(ifs[j]).value))
  }

  lemma {:induction false} BestInterfaceCandidate(ct: ClassTable, ifs: seq<Type>, superClass: ClassId, n: nat)
    requires n <= |ifs|
    ensures BestInterface(ct, ifs, superClass, n).Ok? && BestInterface(ct, ifs, superClass, n).value.Some? ==>
              && Candidate(ct, ifs, superClass, n, BestInterface(ct, ifs, superClass, n).value.value)
              && exists k :: 0 <= k < n && Survives(ct, ifs, superClass, n, k, BestInterface(ct, ifs, superClass, n).value.value)
    ensures BestInterface(ct, ifs, superClass, n) == Ok(None) ==>
              forall i :: 0 <= i < n ==> RawClass(ifs[i]).Some? && !Qualifies(ct, ifs[i], superClass)
    ensures BestInterface(ct, ifs, superClass, n).Ok? ==>
              forall i :: 0 <= i < n ==> ifs[i].Cls? || ifs[i].Param?
  {
    if n > 0 {
      BestInterfaceCandidate(ct, ifs, superClass, n - 1);
      assert ifs[..n] == ifs[..n - 1] + [ifs[n - 1]];
      var prev := BestInterface(ct, ifs, superClass, n - 1);
      var mid := ifs[n - 1];
      if prev.Ok? && (mid.Cls? || mid.Param?) {
        if ClassToClass(ct, RawClass(mid).value, superClass) && RawAssignable(ct, prev.value, RawClass(mid).value) {
          assert Survives(ct, ifs, superClass, n, n - 1, mid);
        } else if prev.value.Some? {
          var k :| 0 <= k < n - 1 && Survives(ct, ifs, superClass, n - 1, k, prev.value.value);
          assert Survives(ct, ifs, superClass, n, k, prev.value.value);
        }
      }
    }
  }

  lemma {:induction false} BestInterfaceErrorSticks(ct: ClassTable, ifs: seq<Type>, superClass: ClassId, k: nat, n: nat)
    requires k <= n <= |ifs|
    requires BestInterface(ct, ifs, superClass, k).Err?
    ensures BestInterface(ct, ifs, superClass, n) == BestInterface(ct, ifs, superClass, k)
  {
    if k < n {
      BestInterfaceErrorSticks(ct, ifs, superClass, k, n - 1);
    }
  }

  /**
   * `getClosestParentType`: for an interface target, the generic interface of `cls` chosen
   * by the scan, if any; otherwise the generic superclass (absent for interfaces, primitives
   * and `Object`). The parent is always one of the class's direct supertypes. When some
   * generic interface qualifies, the scan picks one, and the one it keeps is the last
   * replacement: every qualifying interface after it is one it is not assignable to.
   */
  function ClosestParentType(ct: ClassTable, cls: ClassId, superClass: ClassId): (r: Result<Option<Type>>)
    ensures r.Ok? && r.value.Some? ==> r.value.value in DirectSupertypes(ct, cls)
    ensures r.Ok? && r.value.Some? ==>
              r.value == Superclass(ct, cls) ||
              (IsInterface(ct, superClass) && Candidate(ct, Interfaces(ct, cls), superClass, |Interfaces(ct, cls)|, r.value.value))
    ensures !IsInterface(ct, superClass) ==> r == Ok(Superclass(ct, cls))
    ensures IsInterface(ct, superClass) && r.Ok? &&
            (exists i :: 0 <= i < |Interfaces(ct, cls)| && Qualifies(ct, Interfaces(ct, cls)[i], superClass)) ==>
              && r.value.Some?
              && Candidate(ct, Interfaces(ct, cls), superClass, |Interfaces(ct, cls)|, r.value.value)
              && exists k :: 0 <= k < |Interfaces(ct, cls)| &&
                   Survives(ct, Interfaces(ct, cls), superClass, |Interfaces(ct, cls)|, k, r.value.value)
    ensures r.Err? ==> r.failure == IllegalState
  {
    var ifs := Interfaces(ct, cls);
    BestInterfaceCandidate(ct, ifs, superClass, |ifs|);
    BestInterfaceFailure(ct, ifs, superClass, |ifs|);
    if IsInterface(ct, superClass) then
      match BestInterface(ct, ifs, superClass, |ifs|)
      case Err(e) => Err(e)
      case Ok(Some(g)) => Ok(Some(g))
      case Ok(None) => Ok(Superclass(ct, cls))
    else Ok(Superclass(ct, cls))
  }

  /**
   * Two generic interfaces that both lead to an interface target, the second extending the
   * first: in either declaration order the scan settles on the first, the more general one.
   */
  lemma MoreGeneralInterfaceChosen(ct: ClassTable, cls: ClassId, superClass: ClassId, x: Type, y: Type)
    requires IsInterface(ct, superClass)
    requires Interfaces(ct, cls) == [x, y] || Interfaces(ct, cls) == [y, x]
    requires Qualifies(ct, x, superClass) && Qualifies(ct, y, superClass)
    requires ClassToClass(ct, RawClass(y).value, RawClass(x).value)
    requires !ClassToClass(ct, RawClass(x).value, RawClass(y).value)
    ensures ClosestParentType(ct, cls, superClass) == Ok(Some(x))
  {
    var ifs := Interfaces(ct, cls);
    assert BestInterface(ct, ifs, superClass, 1) == Ok(Some(ifs[0]));
  }

  lemma {:induction false} BestInterfaceFailure(ct: ClassTable, ifs: seq<Type>, superClass: ClassId, n: nat)
    requires n <= |ifs|
    ensures BestInterface(ct, ifs, superClass, n).Err? ==> BestInterface(ct, ifs, superClass, n).failure == IllegalState
  {
    if n > 0 {
      BestInterfaceFailure(ct, ifs, superClass, n - 1);
    }
  }

  /** The loop of `getClosestParentType`, updating the best generic interface found. */
  method GetClosestParentType(ct: ClassTable, cls: ClassId, superClass: ClassId) returns (r: Result<Option<Type>>)
    ensures r == ClosestParentType(ct, cls, superClass)
  {
    if IsInterface(ct, superClass) {
      var interfaceTypes := Interfaces(ct, cls);
      var genericInterface: Option<Type> := None;
      var i := 0;
      while i < |interfaceTypes|
        invariant 0 <= i <= |interfaceTypes|
        invariant BestInterface(ct, interfaceTypes, superClass, i) == Ok(genericInterface)
      {
        var midType := interfaceTypes[i];
        var midClass: ClassId;
        if midType.Param? {
          midClass := midType.raw;
        } else if midType.Cls? {
          midClass := midType.id;
        } else {
          BestInterfaceErrorSticks(ct, interfaceTypes, superClass, i + 1, |interfaceTypes|);
          return Err(IllegalState);
        }
        if ClassToClass(ct, midClass, superClass) && RawAssignable(ct, genericInterface, midClass) {
          genericInterface := Some(midType);
        }
        i := i + 1;
      }
      if genericInterface.Some? {
        return Ok(genericInterface);
      }
    }
    return Ok(Superclass(ct, cls));
  }
}
