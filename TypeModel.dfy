/**
 * The five shapes of a Java generic type, and the class metadata that reflection
 * supplies about them: a finite class table standing in for the JVM's `Class` objects.
 */
module TypeModel {
  import opened Wrappers

  /** Identity of a loaded class (a `Class<?>` object); classes are compared by identity. */
  type ClassId = nat

  /** Identity of a type variable: its declaring entity together with its name. */
  type VarId = nat

  /** A reflective `java.lang.reflect.Type`, one constructor per shape. */
  datatype Type =
    | Cls(id: ClassId)                                      // Class
    | Param(raw: ClassId, owner: Option<Type>, args: seq<Type>)  // ParameterizedType
    | GArray(comp: Type)                                    // GenericArrayType
    | Wild(upper: seq<Type>, lower: seq<Type>)              // WildcardType (declared bounds)
    | TVar(v: VarId)                                        // TypeVariable

  /** What a `Class` object answers about itself. */
  datatype ClassInfo = ClassInfo(
    isPrimitive: bool,
    isInterface: bool,
    component: Option<ClassId>,   // getComponentType(): present exactly for array classes
    typeParams: seq<VarId>,       // getTypeParameters()
    interfaces: seq<Type>,        // getGenericInterfaces()
    superclass: Option<Type>,     // getGenericSuperclass()
    wrapper: Option<ClassId>,     // primitiveToWrapper, for primitives
    unwrapped: Option<ClassId>,   // wrapperToPrimitive, for wrapper classes
    widensTo: set<ClassId>,       // primitive widening conversions
    depth: nat)                   // height in the (acyclic) hierarchy

  /** What a `TypeVariable` answers about itself. */
  datatype VarInfo = VarInfo(bounds: seq<Type>, decl: Option<ClassId>)

  /**
   * The class metadata of one JVM: classes, type variables, the id of `Object`,
   * and the array class `Array.newInstance(c, 0).getClass()` of each component class.
   */
  datatype ClassTable = ClassTable(
    classes: map<ClassId, ClassInfo>,
    vars: map<VarId, VarInfo>,
    objectClass: ClassId,
    arrayOf: map<ClassId, ClassId>)

  /** A type variable to type binding (`Map<TypeVariable<?>, Type>`). */
  type Assigns = map<VarId, Type>

  const NoInfo := ClassInfo(false, false, None, [], [], None, None, None, {}, 0)

  function Info(ct: ClassTable, c: ClassId): ClassInfo {
    if c in ct.classes then ct.classes[c] else NoInfo
  }

  predicate IsPrimitive(ct: ClassTable, c: ClassId) { Info(ct, c).isPrimitive }
  predicate IsInterface(ct: ClassTable, c: ClassId) { Info(ct, c).isInterface }
  predicate IsArrayClass(ct: ClassTable, c: ClassId) { Info(ct, c).component.Some? }
  function Depth(ct: ClassTable, c: ClassId): nat { Info(ct, c).depth }
  function TypeParams(ct: ClassTable, c: ClassId): seq<VarId> { Info(ct, c).typeParams }
  function Interfaces(ct: ClassTable, c: ClassId): seq<Type> { Info(ct, c).interfaces }
  function Superclass(ct: ClassTable, c: ClassId): Option<Type> { Info(ct, c).superclass }

  /**
   * `TypeVariable.getBounds()`; a variable the table does not know is unbounded, for which
   * reflection reports the single bound `Object`.
   */
  function DeclaredBounds(ct: ClassTable, v: VarId): seq<Type> {
    if v in ct.vars then ct.vars[v].bounds else [Cls(ct.objectClass)]
  }

  /** The class declaring a type variable; `None` for a method or constructor variable. */
  function VarDecl(ct: ClassTable, v: VarId): Option<ClassId> {
    if v in ct.vars then ct.vars[v].decl else None
  }

  /** The class of a `Class` or `ParameterizedType`; `None` for the other shapes. */
  function RawClass(t: Type): (r: Option<ClassId>)
    ensures r.Some? <==> t.Cls? || t.Param?
    ensures t.Cls? ==> r == Some(t.id)
    ensures t.Param? ==> r == Some(t.raw)
  {
    match t
    case Cls(c) => Some(c)
    case Param(raw, _, _) => Some(raw)
    case _ => None
  }

  /** The generic superclass (if any) followed by the generic interfaces. */
  function DirectSupertypes(ct: ClassTable, c: ClassId): seq<Type> {
    (if Superclass(ct, c).Some? then [Superclass(ct, c).value] else []) + Interfaces(ct, c)
  }

  function SuperIds(ct: ClassTable, c: ClassId): set<ClassId> {
    set t | t in DirectSupertypes(ct, c) && RawClass(t).Some? :: RawClass(t).value
  }

  /**
   * `Class.isAssignableFrom` on reference types: the reflexive-transitive closure of
   * the direct supertypes, every reference type below `Object`, and array covariance.
   * Only supertypes of smaller depth are followed, which loses nothing on a valid table.
   */
  predicate SubclassOf(ct: ClassTable, c: ClassId, to: ClassId)
    decreases Depth(ct, c)
  {
    || c == to
    || (to == ct.objectClass && !IsPrimitive(ct, c))
    || (exists s :: s in SuperIds(ct, c) && Depth(ct, s) < Depth(ct, c) && SubclassOf(ct, s, to))
    || (&& Info(ct, c).component.Some? && Info(ct, to).component.Some?
        && !IsPrimitive(ct, Info(ct, c).component.value)
        && !IsPrimitive(ct, Info(ct, to).component.value)
        && Depth(ct, Info(ct, c).component.value) < Depth(ct, c)
        && SubclassOf(ct, Info(ct, c).component.value, Info(ct, to).component.value))
  }

  /**
   * Stand-in for `ClassUtils.isAssignable(Class, Class)` with autoboxing: box a primitive
   * source for a reference target, unbox a wrapper source for a primitive target, then
   * identity, primitive widening, or reference subtyping.
   */
  predicate ClassAssignable(ct: ClassTable, c: ClassId, to: ClassId) {
    var boxed := if IsPrimitive(ct, c) && !IsPrimitive(ct, to) then Info(ct, c).wrapper else Some(c);
    match boxed
    case None => false
    case Some(c1) =>
      var unboxed := if IsPrimitive(ct, to) && !IsPrimitive(ct, c1) then Info(ct, c1).unwrapped else Some(c1);
      match unboxed
      case None => false
      case Some(c2) =>
        if c2 == to then true
        else if IsPrimitive(ct, c2) then IsPrimitive(ct, to) && to in Info(ct, c2).widensTo
        else SubclassOf(ct, c2, to)
  }

  /** `isAssignable(Type, Class)` for a class source: equal classes, else `ClassUtils`. */
  predicate ClassToClass(ct: ClassTable, c: ClassId, to: ClassId) {
    c == to || ClassAssignable(ct, c, to)
  }

  /** Wraps every element: a `Type[]` viewed as an array that may hold `null`. */
  function Lift(s: seq<Type>): (r: seq<Option<Type>>)
    ensures |r| == |s| && forall i :: 0 <= i < |s| ==> r[i] == Some(s[i])
  {
    if s == [] then [] else [Some(s[0])] + Lift(s[1..])
  }

  /** `getImplicitLowerBounds`: the declared lower bounds, or `{null}` when there are none. */
  function ImplicitLowerBounds(w: Type): (r: seq<Option<Type>>)
    requires w.Wild?
    ensures |r| >= 1
    ensures |w.lower| == 0 ==> r == [None]
    ensures |w.lower| > 0 ==> |r| == |w.lower| && forall i :: 0 <= i < |r| ==> r[i] == Some(w.lower[i])
  {
    if |w.lower| == 0 then [None] else Lift(w.lower)
  }

  /** `isArrayType`: a generic array type or an array class. */
  predicate IsArrayType(ct: ClassTable, t: Option<Type>)
    // parameterized types, wildcards and type variables are never array types
    ensures IsArrayType(ct, t) ==> t.Some? && (t.value.GArray? || t.value.Cls?)
  {
    t.Some? && (t.value.GArray? || (t.value.Cls? && IsArrayClass(ct, t.value.id)))
  }

  /** `getArrayComponentType`: the component of an array type, `null` for anything else. */
  function ArrayComponentType(ct: ClassTable, t: Option<Type>): (r: Option<Type>)
    ensures r.Some? <==> IsArrayType(ct, t)
    ensures t.Some? && t.value.GArray? ==> r == Some(t.value.comp)
    ensures t.Some? && t.value.Cls? && IsArrayClass(ct, t.value.id) ==>
              r == Some(Cls(Info(ct, t.value.id).component.value))
  {
    match t
    case Some(Cls(c)) => if IsArrayClass(ct, c) then Some(Cls(Info(ct, c).component.value)) else None
    case Some(GArray(comp)) => Some(comp)
    case _ => None
  }
}
