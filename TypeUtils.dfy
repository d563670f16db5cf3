/**
 * The mutually recursive core of the type utilities: the `isAssignable` family (one function
 * per shape of the target type), the `getTypeArguments` family (one per shape of the source
 * type) and the bound normalisation both of them rely on.
 *
 * Java's recursion here is not structural: bounds come from the class table and bindings from
 * maps, so every member takes a `fuel` bound. A member whose own recursion (or a call into the
 * rest of the family) needs a step consumes one unit of fuel and answers `Err(OutOfFuel)` when
 * none is left; dispatchers and scans over a sequence of bounds pass the fuel on unchanged,
 * and terminate by a rank (the second component of every `decreases`).
 */
module TypeUtils {
  import opened Wrappers
  import opened TypeModel
  import opened Variables
  import opened Hierarchy

  /* ---------------------------------------------------------------- isAssignable */

  /**
   * `isAssignable(Type, Type, Map)`: dispatch on the shape of the target; a `null` target is
   * treated as a `null` class.
   */
  function IsAssignable(ct: ClassTable, t: Option<Type>, to: Option<Type>, m: Option<Assigns>, fuel: nat): (r: Result<bool>)
    // `null` goes to `null` and to every type but a primitive class
    ensures t.None? ==> r == Ok(to.None? || !(to.value.Cls? && IsPrimitive(ct, to.value.id)))
    // only `null` goes to `null`
    ensures t.Some? && to.None? ==> r == Ok(false)
    // every type goes to itself
    ensures t.Some? && t == to ==> r == Ok(true)
    // shapes that never go to one another
    ensures t.Some? && t.value.Wild? && to.Some? && to.value.Cls? ==> r == Ok(false)
    ensures t.Some? && t.value.Param? && to.Some? && to.value.GArray? ==> r == Ok(false)
    ensures t.Some? && !t.value.TVar? && to.Some? && to.value.TVar? && t != to ==> r == Ok(false)
    decreases fuel, 1, 0
  {
    match to
    case None => AssignableToClass(ct, t, None, fuel)
    case Some(Cls(c)) => AssignableToClass(ct, t, Some(c), fuel)
    case Some(Param(_, _, _)) => AssignableToParameterized(ct, t, to.value, m, fuel)
    case Some(GArray(_)) => AssignableToGenericArray(ct, t, to.value, m, fuel)
    case Some(Wild(_, _)) => AssignableToWildcard(ct, t, to.value, m, fuel)
    case Some(TVar(v)) => AssignableToVariable(ct, t, v, m, fuel)
  }

  /** `isAssignable(Type, Class)`. */
  function AssignableToClass(ct: ClassTable, t: Option<Type>, toClass: Option<ClassId>, fuel: nat): (r: Result<bool>)
    // null goes to null and to every reference class, and nothing else goes to null
    ensures t.None? ==> r == Ok(toClass.None? || !IsPrimitive(ct, toClass.value))
    ensures t.Some? && toClass.None? ==> r == Ok(false)
    // a class, or a parameterized type through its raw class, answers as `ClassUtils` does
    ensures t.Some? && t.value.Cls? && toClass.Some? ==> r == Ok(ClassToClass(ct, t.value.id, toClass.value))
    ensures t.Some? && t.value.Param? && toClass.Some? ==> r == Ok(ClassToClass(ct, t.value.raw, toClass.value))
    // a generic array goes to `Object`, and to no class that is not an array; a wildcard to no class
    ensures t.Some? && t.value.GArray? && toClass == Some(ct.objectClass) ==> r == Ok(true)
    ensures t.Some? && t.value.GArray? && toClass.Some? && toClass.value != ct.objectClass && !IsArrayClass(ct, toClass.value) ==> r == Ok(false)
    ensures t.Some? && t.value.Wild? && toClass.Some? ==> r == Ok(false)
    decreases fuel, 0, 0
  {
    if t.None? then Ok(toClass.None? || !IsPrimitive(ct, toClass.value))
    else if toClass.None? then Ok(false)
    else if t.value == Cls(toClass.value) then Ok(true)
    else
      var to := toClass.value;
      match t.value
      case Cls(c) => Ok(ClassAssignable(ct, c, to))
      case Param(raw, _, _) => Ok(ClassToClass(ct, raw, to))
      case TVar(v) =>
        if fuel == 0 then Err(OutOfFuel)
        else AnyBoundToClass(ct, DeclaredBounds(ct, v), to, fuel - 1)
      case GArray(comp) =>
        if to == ct.objectClass then Ok(true)
        else if !IsArrayClass(ct, to) then Ok(false)
        else if fuel == 0 then Err(OutOfFuel)
        else AssignableToClass(ct, Some(comp), Info(ct, to).component, fuel - 1)
      case Wild(_, _) => Ok(false)
  }

  /** Whether some bound (in order) is assignable to the class. */
  function AnyBoundToClass(ct: ClassTable, bounds: seq<Type>, to: ClassId, fuel: nat): Result<bool>
    decreases fuel, 2, |bounds|
  {
    if bounds == [] then Ok(false)
    else match AssignableToClass(ct, Some(bounds[0]), Some(to), fuel)
      case Err(e) => Err(e)
      case Ok(true) => Ok(true)
      case Ok(false) => AnyBoundToClass(ct, bounds[1..], to, fuel)
  }

  /** `isAssignable(Type, ParameterizedType, Map)`. */
  function AssignableToParameterized(ct: ClassTable, t: Option<Type>, to: Type, m: Option<Assigns>, fuel: nat): (r: Result<bool>)
    requires to.Param?
    ensures t.None? || t == Some(to) ==> r == Ok(true)
    // any other source is assignable only if its type arguments towards the raw class resolve
    ensures t.Some? && t != Some(to) && r == Ok(true) ==>
              fuel > 0 && TypeArguments(ct, t, to.raw, None, fuel - 1).Ok? && TypeArguments(ct, t, to.raw, None, fuel - 1).value.Some?
    decreases fuel, 0, 0
  {
    if t.None? then Ok(true)
    else if t.value == to then Ok(true)
    else if fuel == 0 then Err(OutOfFuel)
    else match TypeArguments(ct, t, to.raw, None, fuel - 1)
      case Err(e) => Err(e)
      case Ok(None) => Ok(false)
      case Ok(Some(fromMap)) =>
        if |fromMap| == 0 then Ok(true)
        else match ParameterizedTypeArguments(ct, to, to.raw, m, fuel - 1)
          case Err(e) => Err(e)
          case Ok(None) => Err(NullPointer)
          case Ok(Some(toMap)) => ArgumentsCompatible(ct, toMap, fromMap, toMap.Keys, m, fuel - 1)
  }

  /**
   * The loop over the target's type variables (visited in ascending order): each argument,
   * unrolled, must be absent from the source, equal, or within the target's wildcard.
   */
  function ArgumentsCompatible(ct: ClassTable, toMap: Assigns, fromMap: Assigns, keys: set<VarId>,
                               m: Option<Assigns>, fuel: nat): Result<bool>
    decreases fuel, 2, |keys|
  {
    if keys == {} then Ok(true)
    else
      var v := MinVar(keys);
      match Unroll(toMap, v, {})
      case Err(e) => Err(e)
      case Ok(toArg) =>
        match Unroll(fromMap, v, {})
        case Err(e) => Err(e)
        case Ok(fromArg) =>
          if toArg.None? && fromArg.Some? && fromArg.value.Cls? then ArgumentsCompatible(ct, toMap, fromMap, keys - {v}, m, fuel)
          else if fromArg.None? then ArgumentsCompatible(ct, toMap, fromMap, keys - {v}, m, fuel)
          else if toArg.None? then Err(NullPointer)
          else if toArg == fromArg then ArgumentsCompatible(ct, toMap, fromMap, keys - {v}, m, fuel)
          else if !toArg.value.Wild? then Ok(false)
          else match IsAssignable(ct, fromArg, toArg, m, fuel)
            case Err(e) => Err(e)
            case Ok(false) => Ok(false)
            case Ok(true) => ArgumentsCompatible(ct, toMap, fromMap, keys - {v}, m, fuel)
  }

  /** `isAssignable(Type, GenericArrayType, Map)`. */
  function AssignableToGenericArray(ct: ClassTable, t: Option<Type>, to: Type, m: Option<Assigns>, fuel: nat): (r: Result<bool>)
    requires to.GArray?
    ensures t.None? || t == Some(to) ==> r == Ok(true)
    // parameterized types and classes that are not arrays never go to a generic array
    ensures t.Some? && (t.value.Param? || (t.value.Cls? && !IsArrayClass(ct, t.value.id))) ==> r == Ok(false)
    // arrays are covariant: an array goes to a generic array exactly when its component goes to the component
    ensures t.Some? && t != Some(to) && IsArrayType(ct, t) && fuel > 0 ==>
              r == IsAssignable(ct, ArrayComponentType(ct, t), Some(to.comp), m, fuel - 1)
    decreases fuel, 0, 0
  {
    if t.None? then Ok(true)
    else if t.value == to then Ok(true)
    else match t.value
      case Cls(c) =>
        if !IsArrayClass(ct, c) then Ok(false)
        else if fuel == 0 then Err(OutOfFuel)
        else IsAssignable(ct, Some(Cls(Info(ct, c).component.value)), Some(to.comp), m, fuel - 1)
      case GArray(comp) =>
        if fuel == 0 then Err(OutOfFuel)
        else IsAssignable(ct, Some(comp), Some(to.comp), m, fuel - 1)
      case Wild(_, _) =>
        if fuel == 0 then Err(OutOfFuel)
        else (match ImplicitUpperBounds(ct, t.value, fuel - 1)
          case Err(e) => Err(e)
          case Ok(bounds) => AnyAssignable(ct, bounds, to, None, fuel - 1))
      case TVar(v) =>
        if fuel == 0 then Err(OutOfFuel)
        else (match ImplicitBounds(ct, v, fuel - 1)
          case Err(e) => Err(e)
          case Ok(bounds) => AnyAssignable(ct, bounds, to, None, fuel - 1))
      case Param(_, _, _) => Ok(false)
  }

  /** Whether some source (in order) is assignable to the target. */
  function AnyAssignable(ct: ClassTable, srcs: seq<Type>, to: Type, m: Option<Assigns>, fuel: nat): Result<bool>
    decreases fuel, 2, |srcs|
  {
    if srcs == [] then Ok(false)
    else match IsAssignable(ct, Some(srcs[0]), Some(to), m, fuel)
      case Err(e) => Err(e)
      case Ok(true) => Ok(true)
      case Ok(false) => AnyAssignable(ct, srcs[1..], to, m, fuel)
  }

  /** `isAssignable(Type, WildcardType, Map)`. */
  function AssignableToWildcard(ct: ClassTable, t: Option<Type>, to: Type, m: Option<Assigns>, fuel: nat): (r: Result<bool>)
    requires to.Wild?
    ensures t.None? || t == Some(to) ==> r == Ok(true)
    // every other answer comes from comparing bounds, which needs the bounds computed
    ensures t.Some? && t != Some(to) && r.Ok? ==> fuel > 0 && ImplicitUpperBounds(ct, to, fuel - 1).Ok?
    decreases fuel, 0, 0
  {
    if t.None? then Ok(true)
    else if t.value == to then Ok(true)
    else if fuel == 0 then Err(OutOfFuel)
    else match ImplicitUpperBounds(ct, to, fuel - 1)
      case Err(e) => Err(e)
      case Ok(toUpper) =>
        var toLower := ImplicitLowerBounds(to);
        if t.value.Wild? then
          match ImplicitUpperBounds(ct, t.value, fuel - 1)
          case Err(e) => Err(e)
          case Ok(upper) =>
            match UpperBoundsCheck(ct, toUpper, Lift(upper), m, fuel - 1)
            case Ok(true) => LowerBoundsCheck(ct, toLower, ImplicitLowerBounds(t.value), m, fuel - 1)
            case other => other
        else
          match UpperBoundsCheck(ct, toUpper, [t], m, fuel - 1)
          case Ok(true) => LowerBoundsCheck(ct, toLower, [t], m, fuel - 1)
          case other => other
  }

  /** Every source is assignable to every target upper bound, after substitution. */
  function UpperBoundsCheck(ct: ClassTable, toBounds: seq<Type>, srcs: seq<Option<Type>>, m: Option<Assigns>, fuel: nat): Result<bool>
    decreases fuel, 3, |toBounds|
  {
    if toBounds == [] then Ok(true)
    else match Substitute(Some(toBounds[0]), m)
      case Err(e) => Err(e)
      case Ok(toBound) =>
        match AllToBound(ct, srcs, toBound, m, fuel)
        case Ok(true) => UpperBoundsCheck(ct, toBounds[1..], srcs, m, fuel)
        case other => other
  }

  /** Every target lower bound, after substitution, is assignable to every destination. */
  function LowerBoundsCheck(ct: ClassTable, toBounds: seq<Option<Type>>, dsts: seq<Option<Type>>, m: Option<Assigns>, fuel: nat): Result<bool>
    decreases fuel, 3, |toBounds|
  {
    if toBounds == [] then Ok(true)
    else match Substitute(toBounds[0], m)
      case Err(e) => Err(e)
      case Ok(toBound) =>
        match BoundToAll(ct, toBound, dsts, m, fuel)
        case Ok(true) => LowerBoundsCheck(ct, toBounds[1..], dsts, m, fuel)
        case other => other
  }

  /** Each source (in order) is assignable to `dst`. */
  function AllToBound(ct: ClassTable, srcs: seq<Option<Type>>, dst: Option<Type>, m: Option<Assigns>, fuel: nat): Result<bool>
    decreases fuel, 2, |srcs|
  {
    if srcs == [] then Ok(true)
    else match IsAssignable(ct, srcs[0], dst, m, fuel)
      case Ok(true) => AllToBound(ct, srcs[1..], dst, m, fuel)
      case other => other
  }

  /** `src` is assignable to each destination (in order). */
  function BoundToAll(ct: ClassTable, src: Option<Type>, dsts: seq<Option<Type>>, m: Option<Assigns>, fuel: nat): Result<bool>
    decreases fuel, 2, |dsts|
  {
    if dsts == [] then Ok(true)
    else match IsAssignable(ct, src, dsts[0], m, fuel)
      case Ok(true) => BoundToAll(ct, src, dsts[1..], m, fuel)
      case other => other
  }

  /**
   * `isAssignable(Type, TypeVariable, Map)`: a variable is assignable to another when one of
   * its implicit bounds is; any other shape is not. When no bound is assignable the source
   * throws (see the Findings module); this corrected version answers `false`.
   */
  function AssignableToVariable(ct: ClassTable, t: Option<Type>, toV: VarId, m: Option<Assigns>, fuel: nat): (r: Result<bool>)
    ensures t.None? || t == Some(TVar(toV)) ==> r == Ok(true)
    // only a type variable can go to a different type variable
    ensures t.Some? && !t.value.TVar? ==> r == Ok(false)
    decreases fuel, 0, 0
  {
    if t.None? then Ok(true)
    else if t.value == TVar(toV) then Ok(true)
    else if !t.value.TVar? then Ok(false)
    else if fuel == 0 then Err(OutOfFuel)
    else match ImplicitBounds(ct, t.value.v, fuel - 1)
      case Err(e) => Err(e)
      case Ok(bounds) => AnyAssignable(ct, bounds, TVar(toV), m, fuel - 1)
  }

  /* ---------------------------------------------------------------- bounds */

  /**
   * `normalizeUpperBounds`: fewer than two bounds are returned as they are; otherwise the
   * bounds to which no other (distinct) bound is assignable, without repetition.
   */
  function NormalizeUpperBounds(ct: ClassTable, bounds: seq<Type>, fuel: nat): (r: Result<seq<Type>>)
    ensures r.Ok? ==> |r.value| <= |bounds|
    decreases fuel, 4, 0
  {
    if |bounds| < 2 then Ok(bounds) else KeepUnsubsumed(ct, bounds, |bounds|, fuel)
  }

  /** The set of kept bounds after the outer loop has visited `bounds[..n]`, in visiting order. */
  function KeepUnsubsumed(ct: ClassTable, bounds: seq<Type>, n: nat, fuel: nat): (r: Result<seq<Type>>)
    requires n <= |bounds|
    ensures r.Ok? ==> |r.value| <= n
    decreases fuel, 3, n
  {
    if n == 0 then Ok([])
    else match KeepUnsubsumed(ct, bounds, n - 1, fuel)
      case Err(e) => Err(e)
      case Ok(kept) =>
        var x := bounds[n - 1];
        match SubtypeFound(ct, bounds, x, fuel)
        case Err(e) => Err(e)
        case Ok(true) => Ok(kept)
        case Ok(false) => Ok(if x in kept then kept else kept + [x])
  }

  /** The inner loop: some bound other than `x` (in order) is assignable to `x`. */
  function SubtypeFound(ct: ClassTable, others: seq<Type>, x: Type, fuel: nat): Result<bool>
    decreases fuel, 2, |others|
  {
    if others == [] then Ok(false)
    else if others[0] == x then SubtypeFound(ct, others[1..], x, fuel)
    else match IsAssignable(ct, Some(others[0]), Some(x), None, fuel)
      case Err(e) => Err(e)
      case Ok(true) => Ok(true)
      case Ok(false) => SubtypeFound(ct, others[1..], x, fuel)
  }

  /** `getImplicitBounds`: `Object` for an unbounded variable, else its normalised bounds. */
  function ImplicitBounds(ct: ClassTable, v: VarId, fuel: nat): (r: Result<seq<Type>>)
    ensures r.Ok? ==> 1 <= |r.value| || |DeclaredBounds(ct, v)| >= 2
    ensures r.Ok? && |DeclaredBounds(ct, v)| > 0 ==> |r.value| <= |DeclaredBounds(ct, v)|
    decreases fuel, 5, 0
  {
    var bounds := DeclaredBounds(ct, v);
    if |bounds| == 0 then Ok([Cls(ct.objectClass)]) else NormalizeUpperBounds(ct, bounds, fuel)
  }

  /** `getImplicitUpperBounds`: `Object` for a wildcard without upper bounds, else the normalised ones. */
  function ImplicitUpperBounds(ct: ClassTable, w: Type, fuel: nat): (r: Result<seq<Type>>)
    requires w.Wild?
    ensures r.Ok? ==> 1 <= |r.value| || |w.upper| >= 2
    ensures r.Ok? && |w.upper| > 0 ==> |r.value| <= |w.upper|
    decreases fuel, 5, 0
  {
    if |w.upper| == 0 then Ok([Cls(ct.objectClass)]) else NormalizeUpperBounds(ct, w.upper, fuel)
  }

  /* ---------------------------------------------------------------- getTypeArguments */

  /**
   * `getTypeArguments(Type, Class, Map)`: the bindings of the type variables met on the way
   * from `t` up to `toClass`, seeded with `seed`; `None` when `t` is not assignable to it.
   */
  function TypeArguments(ct: ClassTable, t: Option<Type>, toClass: ClassId, seed: Option<Assigns>, fuel: nat): (r: Result<Option<Assigns>>)
    decreases fuel, 1, 0
  {
    match t
    case None => Err(IllegalState)
    case Some(Cls(c)) => ClassTypeArguments(ct, c, toClass, seed, fuel)
    case Some(Param(_, _, _)) => ParameterizedTypeArguments(ct, t.value, toClass, seed, fuel)
    case Some(GArray(comp)) =>
      if fuel == 0 then Err(OutOfFuel)
      else
        var target := if IsArrayClass(ct, toClass) then Info(ct, toClass).component.value else toClass;
        TypeArguments(ct, Some(comp), target, seed, fuel - 1)
    case Some(Wild(_, _)) =>
      if fuel == 0 then Err(OutOfFuel)
      else (match ImplicitUpperBounds(ct, t.value, fuel - 1)
        case Err(e) => Err(e)
        case Ok(bounds) => FirstBoundTypeArguments(ct, bounds, toClass, seed, fuel - 1))
    case Some(TVar(v)) =>
      if fuel == 0 then Err(OutOfFuel)
      else match ImplicitBounds(ct, v, fuel - 1)
        case Err(e) => Err(e)
        case Ok(bounds) => FirstBoundTypeArguments(ct, bounds, toClass, seed, fuel - 1)
  }

  /** The type arguments through the first bound assignable to `toClass`; `None` if there is none. */
  function FirstBoundTypeArguments(ct: ClassTable, bounds: seq<Type>, toClass: ClassId, seed: Option<Assigns>, fuel: nat): Result<Option<Assigns>>
    decreases fuel, 2, |bounds|
  {
    if bounds == [] then Ok(None)
    else match AssignableToClass(ct, Some(bounds[0]), Some(toClass), fuel)
      case Err(e) => Err(e)
      case Ok(true) => TypeArguments(ct, Some(bounds[0]), toClass, seed, fuel)
      case Ok(false) => FirstBoundTypeArguments(ct, bounds[1..], toClass, seed, fuel)
  }

  /** `getTypeArguments(Class, Class, Map)`: climb from a class to the target. */
  function ClassTypeArguments(ct: ClassTable, c: ClassId, toClass: ClassId, seed: Option<Assigns>, fuel: nat): (r: Result<Option<Assigns>>)
    decreases fuel, 0, 0
  {
    if !ClassToClass(ct, c, toClass) then Ok(None)
    else if IsPrimitive(ct, c) && IsPrimitive(ct, toClass) then Ok(Some(map[]))
    else
      var cls := if IsPrimitive(ct, c) then PrimitiveToWrapper(ct, c) else c;
      var m := CopyOf(seed);
      if toClass == cls then Ok(Some(m))
      else if fuel == 0 then Err(OutOfFuel)
      else match ClosestParentType(ct, cls, toClass)
        case Err(e) => Err(e)
        case Ok(parent) => TypeArguments(ct, parent, toClass, Some(m), fuel - 1)
  }

  /** `ClassUtils.primitiveToWrapper`: the wrapper class, or the class itself when it has none. */
  function PrimitiveToWrapper(ct: ClassTable, c: ClassId): ClassId {
    if Info(ct, c).wrapper.Some? then Info(ct, c).wrapper.value else c
  }

  /**
   * `getTypeArguments(ParameterizedType, Class, Map)`: the owner's bindings (or a copy of the
   * seed), then this type's parameters bound positionally to its arguments, then the climb.
   */
  function ParameterizedTypeArguments(ct: ClassTable, p: Type, toClass: ClassId, seed: Option<Assigns>, fuel: nat): (r: Result<Option<Assigns>>)
    requires p.Param?
    decreases fuel, 0, 0
  {
    var cls := p.raw;
    if !ClassToClass(ct, cls, toClass) then Ok(None)
    else
      var start: Result<Option<Assigns>> :=
        if p.owner.Some? && p.owner.value.Param? then
          if fuel == 0 then Err(OutOfFuel)
          else ParameterizedTypeArguments(ct, p.owner.value, p.owner.value.raw, seed, fuel - 1)
        else Ok(Some(CopyOf(seed)));
      match start
      case Err(e) => Err(e)
      case Ok(None) => Err(NullPointer)
      case Ok(Some(m0)) =>
        var params := TypeParams(ct, cls);
        if |p.args| < |params| then Err(IndexOutOfBounds)
        else
          var m := BindParams(m0, params, p.args, |params|);
          if toClass == cls then Ok(Some(m))
          else if fuel == 0 then Err(OutOfFuel)
          else match ClosestParentType(ct, cls, toClass)
            case Err(e) => Err(e)
            case Ok(parent) => TypeArguments(ct, parent, toClass, Some(m), fuel - 1)
  }
}
