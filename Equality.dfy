/**
 * The `equals` family: structural equality of types in which wildcards are compared by their
 * implicit lower bounds and their normalised implicit upper bounds.
 */
module Equality {
  import opened Wrappers
  import opened TypeModel
  import opened TypeUtils

  /** Both types are built by the same constructor. */
  predicate SameKind(t1: Type, t2: Type) {
    || (t1.Cls? && t2.Cls?)
    || (t1.Param? && t2.Param?)
    || (t1.GArray? && t2.GArray?)
    || (t1.Wild? && t2.Wild?)
    || (t1.TVar? && t2.TVar?)
  }

  /** `equals(Type, Type)`: two `null`s are equal, `null` equals nothing else. */
  function Equals(ct: ClassTable, t1: Option<Type>, t2: Option<Type>, fuel: nat): (r: Result<bool>)
    ensures t1 == t2 ==> r == Ok(true)
    ensures t1.None? != t2.None? ==> r == Ok(false)
    ensures t1.Some? ==> r == EqualsOf(ct, t1.value, t2, fuel)
  {
    if t1 == t2 then Ok(true)
    else if t1.None? then Ok(false)
    else EqualsOf(ct, t1.value, t2, fuel)
  }

  /**
   * `equals(Type, Type)` for a non-`null` first type, dispatching to the overload for its
   * shape: parameterized types compare raw class, owner and arguments; generic arrays their
   * components; wildcards their implicit bounds; classes and variables only equal themselves.
   */
  function EqualsOf(ct: ClassTable, t1: Type, t2: Option<Type>, fuel: nat): (r: Result<bool>)
    ensures Some(t1) == t2 ==> r == Ok(true)
    ensures t2.None? ==> r == Ok(false)
    ensures t2.Some? && !SameKind(t1, t2.value) ==> r == Ok(false)
    ensures r == Ok(true) && (t1.Cls? || t1.TVar?) ==> t2 == Some(t1)
    ensures r == Ok(true) && t1.Param? ==> t1.raw == t2.value.raw && |t1.args| == |t2.value.args|
    decreases fuel, t1
  {
    if Some(t1) == t2 then Ok(true)
    else match t1
      case Param(raw, owner, args) =>
        if t2.Some? && t2.value.Param? && raw == t2.value.raw then
          var other := t2.value;
          match OwnerEquals(ct, owner, other.owner, fuel)
          case Err(e) => Err(e)
          case Ok(false) => Ok(false)
          case Ok(true) => TypesEqual(ct, args, other.args, fuel)
        else Ok(false)
      case GArray(comp) =>
        if t2.Some? && t2.value.GArray? then EqualsOf(ct, comp, Some(t2.value.comp), fuel) else Ok(false)
      case Wild(upper, lower) =>
        if t2.Some? && t2.value.Wild? then
          match LowerBoundsEqual(ct, lower, t2.value.lower, fuel)
          case Err(e) => Err(e)
          case Ok(false) => Ok(false)
          case Ok(true) =>
            if fuel == 0 then Err(OutOfFuel)
            else match ImplicitUpperBounds(ct, t1, fuel - 1)
              case Err(e) => Err(e)
              case Ok(u1) =>
                match ImplicitUpperBounds(ct, t2.value, fuel - 1)
                case Err(e) => Err(e)
                case Ok(u2) => TypesEqual(ct, u1, u2, fuel - 1)
        else Ok(false)
      case _ => Ok(false)
  }

  /** The owner types of two parameterized types: `equals(Type, Type)` on values that may be `null`. */
  function OwnerEquals(ct: ClassTable, o1: Option<Type>, o2: Option<Type>, fuel: nat): (r: Result<bool>)
    ensures o1.None? ==> r == Ok(o2.None?)
    decreases fuel, o1, 0
  {
    match o1
    case None => Ok(o2.None?)
    case Some(o) => EqualsOf(ct, o, o2, fuel)
  }

  /**
   * `equals(Type[], Type[])` on the implicit lower bounds: a wildcard without lower bounds has
   * `{null}`, which equals only another `{null}`.
   */
  function LowerBoundsEqual(ct: ClassTable, l1: seq<Type>, l2: seq<Type>, fuel: nat): (r: Result<bool>)
    ensures |l1| == 0 ==> r == Ok(|l2| == 0)
    ensures |l2| == 0 ==> r == Ok(|l1| == 0)
    decreases fuel, l1, 2
  {
    if |l1| == 0 || |l2| == 0 then Ok(|l1| == |l2|)
    else TypesEqual(ct, l1, l2, fuel)
  }

  /** `equals(Type[], Type[])`: same length and pairwise equal, compared in order. */
  function TypesEqual(ct: ClassTable, s1: seq<Type>, s2: seq<Type>, fuel: nat): (r: Result<bool>)
    ensures |s1| != |s2| ==> r == Ok(false)
    ensures s1 == s2 ==> r == Ok(true)
    decreases fuel, s1, 1
  {
    if |s1| != |s2| then Ok(false)
    else if s1 == [] then Ok(true)
    else match EqualsOf(ct, s1[0], Some(s2[0]), fuel)
      case Err(e) => Err(e)
      case Ok(false) => Ok(false)
      case Ok(true) =>
        assert s1 == s2 ==> s1[1..] == s2[1..];
        TypesEqual(ct, s1[1..], s2[1..], fuel)
  }

  /** Two type lists are equal exactly when they have the same length and are pairwise equal. */
  lemma {:induction false} TypesEqualPairwise(ct: ClassTable, s1: seq<Type>, s2: seq<Type>, fuel: nat)
    ensures TypesEqual(ct, s1, s2, fuel) == Ok(true) <==>
              |s1| == |s2| && forall i :: 0 <= i < |s1| ==> EqualsOf(ct, s1[i], Some(s2[i]), fuel) == Ok(true)
    decreases |s1|
  {
    if |s1| == |s2| && s1 != [] {
      TypesEqualPairwise(ct, s1[1..], s2[1..], fuel);
      assert forall i :: 0 < i < |s1| ==> s1[i] == s1[1..][i - 1] && s2[i] == s2[1..][i - 1];
    }
  }

  /**
   * Two different parameterized types are equal exactly when their raw classes are the same,
   * their owners are equal and their arguments are pairwise equal.
   */
  lemma ParameterizedEquals(ct: ClassTable, p1: Type, p2: Type, fuel: nat)
    requires p1.Param? && p2.Param?
    ensures EqualsOf(ct, p1, Some(p2), fuel) == Ok(true) <==>
              || p1 == p2
              || (&& p1.raw == p2.raw
                  && OwnerEquals(ct, p1.owner, p2.owner, fuel) == Ok(true)
                  && |p1.args| == |p2.args|
                  && forall i :: 0 <= i < |p1.args| ==> EqualsOf(ct, p1.args[i], Some(p2.args[i]), fuel) == Ok(true))
  {
    TypesEqualPairwise(ct, p1.args, p2.args, fuel);
  }

  /** Types built without wildcards. */
  predicate WildcardFree(t: Type) {
    match t
    case Cls(_) => true
    case Param(_, owner, args) =>
      (owner.Some? ==> WildcardFree(owner.value)) && forall i :: 0 <= i < |args| ==> WildcardFree(args[i])
    case GArray(comp) => WildcardFree(comp)
    case Wild(_, _) => false
    case TVar(_) => true
  }

  /** On types without wildcards, `equals` is exactly structural equality, at any fuel. */
  lemma {:induction false} EqualsStructural(ct: ClassTable, t1: Type, t2: Type, fuel: nat)
    requires WildcardFree(t1)
    ensures EqualsOf(ct, t1, Some(t2), fuel) == Ok(t1 == t2)
    decreases t1, 1
  {
    match t1
    case Param(raw, owner, args) =>
      if t2.Param? && raw == t2.raw {
        if owner.Some? && t2.owner.Some? {
          EqualsStructural(ct, owner.value, t2.owner.value, fuel);
        }
        if OwnerEquals(ct, owner, t2.owner, fuel) == Ok(true) {
          assert owner == t2.owner;
          ArgumentsStructural(ct, args, t2.args, fuel);
        }
      }
    case GArray(comp) =>
      if t2.GArray? {
        EqualsStructural(ct, comp, t2.comp, fuel);
      }
    case _ =>
  }

  /** The argument lists of types without wildcards are equal exactly when they are identical. */
  lemma {:induction false} ArgumentsStructural(ct: ClassTable, s1: seq<Type>, s2: seq<Type>, fuel: nat)
    requires forall i :: 0 <= i < |s1| ==> WildcardFree(s1[i])
    ensures TypesEqual(ct, s1, s2, fuel) == Ok(s1 == s2)
    decreases s1, 0
  {
    if |s1| == |s2| && s1 != [] {
      EqualsStructural(ct, s1[0], s2[0], fuel);
      ArgumentsStructural(ct, s1[1..], s2[1..], fuel);
      if s1[0] == s2[0] && s1[1..] == s2[1..] {
        assert s1 == [s1[0]] + s1[1..];
        assert s2 == [s2[0]] + s2[1..];
      }
    }
  }

  /** Hence, on types without wildcards, `equals` is symmetric. */
  lemma EqualsSymmetricWithoutWildcards(ct: ClassTable, t1: Type, t2: Type, fuel: nat)
    requires WildcardFree(t1) && WildcardFree(t2)
    ensures EqualsOf(ct, t1, Some(t2), fuel) == EqualsOf(ct, t2, Some(t1), fuel)
  {
    EqualsStructural(ct, t1, t2, fuel);
    EqualsStructural(ct, t2, t1, fuel);
  }

  /**
   * Wildcards are compared by what they admit, not by how they are written: `? extends Object`
   * equals `?`, both having the implicit upper bound `Object` and no lower bound.
   */
  lemma ExtendsObjectEqualsUnbounded(ct: ClassTable, fuel: nat)
    requires fuel > 0
    ensures EqualsOf(ct, Wild([Cls(ct.objectClass)], []), Some(Wild([], [])), fuel) == Ok(true)
  {
    var w1 := Wild([Cls(ct.objectClass)], []);
    var w2 := Wild([], []);
    assert ImplicitUpperBounds(ct, w1, fuel - 1) == Ok([Cls(ct.objectClass)]);
    assert ImplicitUpperBounds(ct, w2, fuel - 1) == Ok([Cls(ct.objectClass)]);
  }

  /** `equals` is symmetric, wildcards included. */
  lemma EqualsSymmetric(ct: ClassTable, t1: Type, t2: Type, fuel: nat)
    ensures EqualsOf(ct, t1, Some(t2), fuel) == Ok(true) <==> EqualsOf(ct, t2, Some(t1), fuel) == Ok(true)
  {
    if EqualsOf(ct, t1, Some(t2), fuel) == Ok(true) {
      EqualsFlips(ct, t1, t2, fuel);
    }
    if EqualsOf(ct, t2, Some(t1), fuel) == Ok(true) {
      EqualsFlips(ct, t2, t1, fuel);
    }
  }

  /** An equality that holds one way holds the other way. */
  lemma {:induction false} EqualsFlips(ct: ClassTable, t1: Type, t2: Type, fuel: nat)
    requires EqualsOf(ct, t1, Some(t2), fuel) == Ok(true)
    ensures EqualsOf(ct, t2, Some(t1), fuel) == Ok(true)
    decreases fuel, t1
  {
    if t1 != t2 {
      match t1
      case Param(raw, owner, args) =>
        if owner.Some? {
          EqualsFlips(ct, owner.value, t2.owner.value, fuel);
        }
        TypesEqualFlips(ct, args, t2.args, fuel);
      case GArray(comp) =>
        EqualsFlips(ct, comp, t2.comp, fuel);
      case Wild(upper, lower) =>
        if |lower| > 0 {
          TypesEqualFlips(ct, lower, t2.lower, fuel);
        }
        var u1 := ImplicitUpperBounds(ct, t1, fuel - 1).value;
        var u2 := ImplicitUpperBounds(ct, t2, fuel - 1).value;
        TypesEqualFlips(ct, u1, u2, fuel - 1);
      case _ =>
    }
  }

  /** `EqualsFlips` for argument arrays, element by element. */
  lemma {:induction false} TypesEqualFlips(ct: ClassTable, s1: seq<Type>, s2: seq<Type>, fuel: nat)
    requires TypesEqual(ct, s1, s2, fuel) == Ok(true)
    ensures TypesEqual(ct, s2, s1, fuel) == Ok(true)
    decreases fuel, s1, 1
  {
    if s1 != [] {
      EqualsFlips(ct, s1[0], s2[0], fuel);
      TypesEqualFlips(ct, s1[1..], s2[1..], fuel);
    }
  }
}
