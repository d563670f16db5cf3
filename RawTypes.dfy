/**
 * The members built on top of `isAssignable` and `getTypeArguments`: the raw class of a type
 * in the context of an assigning type (`getRawType(Type, Type)`), `isInstance`, and
 * `typesSatisfyVariables`.
 */
module RawTypes {
  import opened Wrappers
  import opened TypeModel
  import opened Variables
  import opened Hierarchy
  import opened TypeUtils
  import opened Resolution
  import Assignability

  /* ---------------------------------------------------------------- getRawType */

  /**
   * `getRawType(Type, Type)`: `null` has no shape the method knows and is an
   * `IllegalArgumentException`; everything else goes to `RawTypeOf`.
   */
  function RawType(ct: ClassTable, t: Option<Type>, assigning: Option<Type>, fuel: nat): (r: Result<Option<ClassId>>)
    ensures t.None? ==> r == Err(IllegalArgument)
    ensures t.Some? ==> r == RawTypeOf(ct, t.value, assigning, fuel)
  {
    if t.None? then Err(IllegalArgument) else RawTypeOf(ct, t.value, assigning, fuel)
  }

  /**
   * The raw class of a type: a class is its own, a parameterized type has its raw class, a
   * class's type variable is resolved through the bindings of the assigning type, a generic
   * array is the array class of its component's raw class, and a wildcard has none.
   */
  function RawTypeOf(ct: ClassTable, t: Type, assigning: Option<Type>, fuel: nat): (r: Result<Option<ClassId>>)
    // classes and parameterized types need no context
    ensures t.Cls? ==> r == Ok(Some(t.id))
    ensures t.Param? ==> r == Ok(Some(t.raw))
    // wildcards, and variables without a context or declared by a method, stay unresolved
    ensures t.Wild? ==> r == Ok(None)
    ensures t.TVar? && (assigning.None? || VarDecl(ct, t.v).None?) ==> r == Ok(None)
    // a generic array is an array class, or the creation of the array fails
    ensures t.GArray? && r.Ok? ==> r.value.Some? && r.value.value in ct.arrayOf.Values
    ensures t.GArray? && RawTypeOf(ct, t.comp, assigning, fuel) == Ok(None) ==> r == Err(NullPointer)
    decreases fuel, t
  {
    match t
    case Cls(c) => Ok(Some(c))
    case Param(raw, _, _) => Ok(Some(raw))
    case TVar(v) =>
      if assigning.None? || VarDecl(ct, v).None? then Ok(None)
      else if fuel == 0 then Err(OutOfFuel)
      else (match TypeArguments(ct, assigning, VarDecl(ct, v).value, None, fuel - 1)
        case Err(e) => Err(e)
        case Ok(None) => Ok(None)
        case Ok(Some(assigns)) =>
          if v !in assigns then Ok(None) else RawTypeOf(ct, assigns[v], assigning, fuel - 1))
    case GArray(comp) =>
      (match RawTypeOf(ct, comp, assigning, fuel)
        case Err(e) => Err(e)
        case Ok(None) => Err(NullPointer)
        case Ok(Some(c)) => if c in ct.arrayOf then Ok(Some(ct.arrayOf[c])) else Err(IllegalArgument))
    case Wild(_, _) => Ok(None)
  }

  /** Every array class the table can create has the class it was created from as its component. */
  predicate ArrayClassesAgree(ct: ClassTable) {
    forall c :: c in ct.arrayOf ==> Info(ct, ct.arrayOf[c]).component == Some(c)
  }

  /** A type built from classes, parameterized types and generic arrays of them. */
  predicate Concrete(t: Type) {
    match t
    case Cls(_) => true
    case Param(_, _, _) => true
    case GArray(comp) => Concrete(comp)
    case _ => false
  }

  /**
   * The raw class of a generic array, when there is one, is an array type whose component is
   * the raw class of the generic component: `getArrayComponentType` undoes the array creation.
   */
  lemma GenericArrayRawType(ct: ClassTable, comp: Type, assigning: Option<Type>, fuel: nat, c: ClassId)
    requires ArrayClassesAgree(ct)
    requires RawTypeOf(ct, GArray(comp), assigning, fuel) == Ok(Some(c))
    ensures IsArrayType(ct, Some(Cls(c)))
    ensures ArrayComponentType(ct, Some(Cls(c))).Some? && ArrayComponentType(ct, Some(Cls(c))).value.Cls?
    ensures RawTypeOf(ct, comp, assigning, fuel) == Ok(Some(ArrayComponentType(ct, Some(Cls(c))).value.id))
  {
    var k :| RawTypeOf(ct, comp, assigning, fuel) == Ok(Some(k)) && k in ct.arrayOf && ct.arrayOf[k] == c;
  }

  /**
   * A concrete type's raw class does not depend on the assigning type, and its computation
   * never runs out of fuel; it fails only where an array of its raw component cannot be made.
   */
  lemma {:induction false} ConcreteRawTypeIgnoresContext(ct: ClassTable, t: Type, a1: Option<Type>, a2: Option<Type>, fuel: nat)
    requires Concrete(t)
    ensures RawTypeOf(ct, t, a1, fuel) == RawTypeOf(ct, t, a2, 0)
    ensures RawTypeOf(ct, t, a1, fuel).Err? ==> RawTypeOf(ct, t, a1, fuel) == Err(IllegalArgument)
  {
    if t.GArray? {
      ConcreteRawTypeIgnoresContext(ct, t.comp, a1, a2, fuel);
    }
  }

  /**
   * A class's type variable, resolved against a parameterization of that class, has the raw
   * class of the argument at the variable's position (when that argument is not itself a
   * variable, which would be looked up again).
   */
  lemma VariableResolvedByArgument(ct: ClassTable, v: VarId, args: seq<Type>, i: nat, fuel: nat)
    requires VarDecl(ct, v).Some? && fuel > 0
    requires var params := TypeParams(ct, VarDecl(ct, v).value);
      && |params| <= |args| && i < |params| && params[i] == v
      && (forall a, b :: 0 <= a < b < |params| ==> params[a] != params[b])
    requires !args[i].TVar?
    ensures RawTypeOf(ct, TVar(v), Some(Param(VarDecl(ct, v).value, None, args)), fuel) ==
              RawTypeOf(ct, args[i], Some(Param(VarDecl(ct, v).value, None, args)), fuel - 1)
  {
    var p := Param(VarDecl(ct, v).value, None, args);
    var r := ParameterizedBindsParameters(ct, p, None, fuel - 1, map[]);
    assert v in r && r[v] == args[i];
    assert TypeArguments(ct, Some(p), VarDecl(ct, v).value, None, fuel - 1) == Ok(Some(r));
  }

  /** A class's type variable bound in the assigning type's arguments has the raw class of its binding. */
  lemma VariableLookup(ct: ClassTable, v: VarId, a: Type, fuel: nat, r: Assigns)
    requires VarDecl(ct, v).Some? && fuel > 0
    requires TypeArguments(ct, Some(a), VarDecl(ct, v).value, None, fuel - 1) == Ok(Some(r)) && v in r
    ensures RawTypeOf(ct, TVar(v), Some(a), fuel) == RawTypeOf(ct, r[v], Some(a), fuel - 1)
  {
  }

  /**
   * A type variable of class `D`, resolved against a subtype whose parent towards `D` is a
   * parameterization `q` of `D` (`class StringList extends ArrayList<String>`): the variable
   * has the raw class of `q`'s argument at its position, when that argument is not itself a
   * variable.
   */
  lemma VariableResolvedThroughParent(ct: ClassTable, v: VarId, a: Type, q: Type, i: nat, fuel: nat)
    requires ValidTable(ct) && VarDecl(ct, v).Some? && fuel > 0
    requires (a.Cls? || a.Param?) && !IsPrimitive(ct, RawClass(a).value) && RawClass(a).value != VarDecl(ct, v).value
    requires ClosestParentType(ct, RawClass(a).value, VarDecl(ct, v).value) == Ok(Some(q))
    requires q.Param? && q.raw == VarDecl(ct, v).value
    requires i < |TypeParams(ct, q.raw)| && i < |q.args| && TypeParams(ct, q.raw)[i] == v && !q.args[i].TVar?
    ensures TypeArguments(ct, Some(a), VarDecl(ct, v).value, None, fuel - 1).Ok? ==>
              RawTypeOf(ct, TVar(v), Some(a), fuel) == RawTypeOf(ct, q.args[i], Some(a), fuel - 1)
  {
    ParentArgumentBound(ct, a, q, i, fuel - 1);
    var res := TypeArguments(ct, Some(a), q.raw, None, fuel - 1);
    if res.Ok? {
      VariableLookup(ct, v, a, fuel, res.value.value);
    }
  }

  /**
   * A type variable of class `D`, resolved against a parameterized subtype that hands one of
   * its own parameters on to `D` (`class Box<T> extends ArrayList<T>`, against `Box<String>`):
   * the variable has the raw class of the subtype's argument for that parameter, when that
   * argument is not itself a variable.
   */
  lemma VariableResolvedThroughSubtypeArgument(ct: ClassTable, v: VarId, a: Type, q: Type, i: nat, j: nat, fuel: nat)
    requires ValidTable(ct) && VarDecl(ct, v).Some? && fuel > 0
    requires a.Param? && !IsPrimitive(ct, a.raw) && a.raw != VarDecl(ct, v).value
    requires ClosestParentType(ct, a.raw, VarDecl(ct, v).value) == Ok(Some(q))
    requires q.Param? && q.raw == VarDecl(ct, v).value
    requires i < |TypeParams(ct, q.raw)| && i < |q.args| && TypeParams(ct, q.raw)[i] == v
    requires j < |TypeParams(ct, a.raw)| && j < |a.args| && q.args[i] == TVar(TypeParams(ct, a.raw)[j]) && !a.args[j].TVar?
    ensures TypeArguments(ct, Some(a), VarDecl(ct, v).value, None, fuel - 1).Ok? ==>
              RawTypeOf(ct, TVar(v), Some(a), fuel) == RawTypeOf(ct, a.args[j], Some(a), fuel - 1)
  {
    SubtypeArgumentBound(ct, a, q, i, j, fuel - 1);
    var res := TypeArguments(ct, Some(a), q.raw, None, fuel - 1);
    if res.Ok? {
      VariableLookup(ct, v, a, fuel, res.value.value);
    }
  }

  /* ---------------------------------------------------------------- isInstance */

  /**
   * `isInstance`: no value is an instance of `null`; `null` is an instance of every type but a
   * primitive class; a value is otherwise an instance when its class is assignable.
   */
  function IsInstance(ct: ClassTable, valueClass: Option<ClassId>, t: Option<Type>, fuel: nat): (r: Result<bool>)
    ensures t.None? ==> r == Ok(false)
    ensures t.Some? && valueClass.None? ==> r == Ok(!(t.value.Cls? && IsPrimitive(ct, t.value.id)))
    // against a class, it is the class-to-class check
    ensures t.Some? && t.value.Cls? && valueClass.Some? ==> r == Ok(ClassToClass(ct, valueClass.value, t.value.id))
    // no value is an instance of a bare type variable
    ensures t.Some? && t.value.TVar? && valueClass.Some? ==> r == Ok(false)
  {
    if t.None? then Ok(false)
    else if valueClass.None? then Ok(!(t.value.Cls? && IsPrimitive(ct, t.value.id)))
    else IsAssignable(ct, Some(Cls(valueClass.value)), t, None, fuel)
  }

  /** A value of a reference class is an instance of every parameterization of its own class. */
  lemma InstanceOfOwnParameterization(ct: ClassTable, c: ClassId, owner: Option<Type>, args: seq<Type>, fuel: nat)
    requires !IsPrimitive(ct, c) && fuel > 0
    ensures IsInstance(ct, Some(c), Some(Param(c, owner, args)), fuel) == Ok(true)
  {
    Assignability.RawToParameterized(ct, c, owner, args, None, fuel);
  }

  /* ---------------------------------------------------------------- typesSatisfyVariables */

  /**
   * `typesSatisfyVariables`: every bound type (entries visited in ascending variable order) is
   * assignable to each of its variable's implicit bounds, substituted through the map.
   */
  function TypesSatisfyVariables(ct: ClassTable, m: Assigns, fuel: nat): (r: Result<bool>)
    ensures m == map[] ==> r == Ok(true)
  {
    EntriesSatisfy(ct, m, m.Keys, fuel)
  }

  /** The outer loop over the entries whose variables are in `keys`. */
  function EntriesSatisfy(ct: ClassTable, m: Assigns, keys: set<VarId>, fuel: nat): Result<bool>
    requires keys <= m.Keys
    decreases |keys|
  {
    if keys == {} then Ok(true)
    else
      var v := MinVar(keys);
      match ImplicitBounds(ct, v, fuel)
      case Err(e) => Err(e)
      case Ok(bounds) =>
        match BoundsAdmit(ct, m, m[v], bounds, fuel)
        case Err(e) => Err(e)
        case Ok(false) => Ok(false)
        case Ok(true) => EntriesSatisfy(ct, m, keys - {v}, fuel)
  }

  /** The inner loop: the type goes to each bound in turn, substituted through the map. */
  function BoundsAdmit(ct: ClassTable, m: Assigns, t: Type, bounds: seq<Type>, fuel: nat): Result<bool>
    decreases |bounds|
  {
    if bounds == [] then Ok(true)
    else match Substitute(Some(bounds[0]), Some(m))
      case Err(e) => Err(e)
      case Ok(bound) =>
        match IsAssignable(ct, Some(t), bound, Some(m), fuel)
        case Err(e) => Err(e)
        case Ok(false) => Ok(false)
        case Ok(true) => BoundsAdmit(ct, m, t, bounds[1..], fuel)
  }

  /** One entry satisfies its variable: every implicit bound, substituted, receives its type. */
  predicate Satisfies(ct: ClassTable, m: Assigns, v: VarId, fuel: nat)
    requires v in m
  {
    && ImplicitBounds(ct, v, fuel).Ok?
    && var bounds := ImplicitBounds(ct, v, fuel).value;
       forall i :: 0 <= i < |bounds| ==>
         && Substitute(Some(bounds[i]), Some(m)).Ok?
         && IsAssignable(ct, Some(m[v]), Substitute(Some(bounds[i]), Some(m)).value, Some(m), fuel) == Ok(true)
  }

  lemma {:induction false} BoundsAdmitForall(ct: ClassTable, m: Assigns, t: Type, bounds: seq<Type>, fuel: nat)
    ensures BoundsAdmit(ct, m, t, bounds, fuel) == Ok(true) <==>
              forall i :: 0 <= i < |bounds| ==>
                && Substitute(Some(bounds[i]), Some(m)).Ok?
                && IsAssignable(ct, Some(t), Substitute(Some(bounds[i]), Some(m)).value, Some(m), fuel) == Ok(true)
    decreases |bounds|
  {
    if bounds != [] {
      BoundsAdmitForall(ct, m, t, bounds[1..], fuel);
      assert forall i :: 0 < i < |bounds| ==> bounds[i] == bounds[1..][i - 1];
    }
  }

  lemma {:induction false} EntriesSatisfyForall(ct: ClassTable, m: Assigns, keys: set<VarId>, fuel: nat)
    requires keys <= m.Keys
    ensures EntriesSatisfy(ct, m, keys, fuel) == Ok(true) <==> forall v :: v in keys ==> Satisfies(ct, m, v, fuel)
    decreases |keys|
  {
    if keys != {} {
      var v := MinVar(keys);
      EntriesSatisfyForall(ct, m, keys - {v}, fuel);
      if ImplicitBounds(ct, v, fuel).Ok? {
        BoundsAdmitForall(ct, m, m[v], ImplicitBounds(ct, v, fuel).value, fuel);
      }
    }
  }

  /** `typesSatisfyVariables` answers `true` exactly when every entry satisfies its variable. */
  lemma TypesSatisfyVariablesIff(ct: ClassTable, m: Assigns, fuel: nat)
    ensures TypesSatisfyVariables(ct, m, fuel) == Ok(true) <==> forall v :: v in m ==> Satisfies(ct, m, v, fuel)
  {
    EntriesSatisfyForall(ct, m, m.Keys, fuel);
  }

  /** An unbounded variable bound to a reference class is satisfied: everything of that kind is an `Object`. */
  lemma UnboundedVariableSatisfied(ct: ClassTable, m: Assigns, v: VarId, c: ClassId, fuel: nat)
    requires v in m && m[v] == Cls(c) && DeclaredBounds(ct, v) == [Cls(ct.objectClass)]
    requires !IsPrimitive(ct, c) && !IsPrimitive(ct, ct.objectClass)
    ensures Satisfies(ct, m, v, fuel)
  {
    var bounds := [Cls(ct.objectClass)];
    assert ImplicitBounds(ct, v, fuel) == Ok(bounds);
    assert Substitute(Some(bounds[0]), Some(m)) == Ok(Some(Cls(ct.objectClass)));
    assert SubclassOf(ct, c, ct.objectClass);
    assert IsAssignable(ct, Some(Cls(c)), Some(Cls(ct.objectClass)), Some(m), fuel) == Ok(true);
  }
}
