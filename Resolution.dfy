/**
 * What `getTypeArguments` computes: the positional bindings of a parameterized type, and, on
 * a well-formed class table, `null` exactly when the source's class is not assignable to the
 * target class.
 */
module Resolution {
  import opened Wrappers
  import opened TypeModel
  import opened Variables
  import opened Hierarchy
  import opened TypeUtils

  /**
   * The enclosing parameterized types (owners) of `t` all have classes below depth `d`: a
   * class depends on its supertypes and on their qualifiers, and that dependency is acyclic.
   */
  predicate OwnersBelow(ct: ClassTable, t: Type, d: nat) {
    t.Param? && t.owner.Some? && t.owner.value.Param? ==>
      Depth(ct, t.owner.value.raw) < d && OwnersBelow(ct, t.owner.value, d)
  }

  /** A parameterized type, and each of its owners, has one argument per type parameter of its class. */
  predicate WellSized(ct: ClassTable, t: Type) {
    t.Param? ==> |t.args| == |TypeParams(ct, t.raw)| && (t.owner.Some? ==> WellSized(ct, t.owner.value))
  }

  /**
   * Direct supertypes are (parameterized) reference classes that are not arrays, lie strictly
   * below their subclass together with their owners (a class depends on its supertypes and
   * their qualifiers, acyclically), and are well sized.
   */
  ghost predicate SupertypesBelow(ct: ClassTable) {
    forall c, t :: t in DirectSupertypes(ct, c) ==>
      && (t.Cls? || t.Param?)
      && !IsPrimitive(ct, RawClass(t).value)
      && !IsArrayClass(ct, RawClass(t).value)
      && Depth(ct, RawClass(t).value) < Depth(ct, c)
      && OwnersBelow(ct, t, Depth(ct, c))
      && WellSized(ct, t)
  }

  /**
   * A class's generic interfaces are interfaces, an interface has no superclass and is not an
   * array, a superclass is not an interface, and `Object` is the root: a reference class that
   * is neither an interface nor an array and has no supertypes.
   */
  ghost predicate HierarchyShaped(ct: ClassTable) {
    && (forall c, t :: t in Interfaces(ct, c) && RawClass(t).Some? ==> IsInterface(ct, RawClass(t).value))
    && (forall c :: IsInterface(ct, c) ==> Superclass(ct, c).None? && !IsArrayClass(ct, c))
    && (forall c :: Superclass(ct, c).Some? && RawClass(Superclass(ct, c).value).Some? ==>
          !IsInterface(ct, RawClass(Superclass(ct, c).value).value))
    && !IsInterface(ct, ct.objectClass) && !IsPrimitive(ct, ct.objectClass)
    && !IsArrayClass(ct, ct.objectClass) && DirectSupertypes(ct, ct.objectClass) == []
  }

  /** A class's type parameters are declared by it and are distinct; every variable has a bound. */
  ghost predicate VariablesDeclared(ct: ClassTable) {
    && (forall c: ClassId, i :: 0 <= i < |TypeParams(ct, c)| ==> VarDecl(ct, TypeParams(ct, c)[i]) == Some(c))
    && (forall c, i, j :: 0 <= i < j < |TypeParams(ct, c)| ==> TypeParams(ct, c)[i] != TypeParams(ct, c)[j])
    && (forall v :: v in ct.vars ==> ct.vars[v].bounds != [])
  }

  /** A primitive has no supertypes, is not an array, and boxes to a reference class that is not an array. */
  ghost predicate PrimitivesBoxed(ct: ClassTable) {
    forall c :: IsPrimitive(ct, c) ==>
      && DirectSupertypes(ct, c) == []
      && !IsArrayClass(ct, c)
      && (Info(ct, c).wrapper.Some? ==>
            !IsPrimitive(ct, Info(ct, c).wrapper.value) && !IsArrayClass(ct, Info(ct, c).wrapper.value))
  }

  /** The shape of the class table the JVM guarantees. */
  ghost predicate ValidTable(ct: ClassTable) {
    SupertypesBelow(ct) && HierarchyShaped(ct) && VariablesDeclared(ct) && PrimitivesBoxed(ct)
  }

  /** Following supertypes from an interface only reaches interfaces and `Object`. */
  lemma {:induction false} InterfaceReach(ct: ClassTable, i: ClassId, to: ClassId)
    requires SupertypesBelow(ct) && HierarchyShaped(ct) && IsInterface(ct, i) && SubclassOf(ct, i, to)
    ensures IsInterface(ct, to) || to == ct.objectClass
    decreases Depth(ct, i)
  {
    if i != to && to != ct.objectClass {
      var s :| s in SuperIds(ct, i) && Depth(ct, s) < Depth(ct, i) && SubclassOf(ct, s, to);
      var t :| t in DirectSupertypes(ct, i) && RawClass(t).Some? && RawClass(t).value == s;
      assert t in Interfaces(ct, i);
      InterfaceReach(ct, s, to);
    }
  }

  /** Between reference classes, assignability is subclassing. */
  lemma ReferenceAssignable(ct: ClassTable, c: ClassId, to: ClassId)
    requires !IsPrimitive(ct, c) && !IsPrimitive(ct, to)
    ensures ClassToClass(ct, c, to) <==> SubclassOf(ct, c, to)
  {
  }

  /** On a well-formed table a direct supertype is a (parameterized) reference class that is not an array. */
  lemma SupertypeIsReference(ct: ClassTable, c: ClassId, t: Type)
    requires SupertypesBelow(ct) && t in DirectSupertypes(ct, c)
    ensures t.Cls? || t.Param?
    ensures !IsPrimitive(ct, RawClass(t).value) && !IsArrayClass(ct, RawClass(t).value)
  {
  }

  /**
   * When no generic interface of a class that is not an array leads to an interface target
   * (or the target is a class other than `Object`), the class reaches the target through its
   * superclass.
   */
  lemma SuperclassLeadsToTarget(ct: ClassTable, c: ClassId, to: ClassId, p: Type)
    requires SupertypesBelow(ct) && HierarchyShaped(ct)
    requires !IsArrayClass(ct, c) && !IsPrimitive(ct, to) && c != to && to != ct.objectClass && SubclassOf(ct, c, to)
    requires Superclass(ct, c) == Some(p)
    requires IsInterface(ct, to) ==>
               forall i :: 0 <= i < |Interfaces(ct, c)| ==>
                 (RawClass(Interfaces(ct, c)[i]).Some? &&
                  !(ClassToClass(ct, RawClass(Interfaces(ct, c)[i]).value, to) &&
                    !IsPrimitive(ct, RawClass(Interfaces(ct, c)[i]).value)))
    ensures RawClass(p).Some? && SubclassOf(ct, RawClass(p).value, to)
  {
    var t := SupertypeToward(ct, c, to);
    if t != p {
      var ifs := Interfaces(ct, c);
      assert t in ifs;
      var k :| 0 <= k < |ifs| && ifs[k] == t;
      InterfaceLeads(ct, c, to, t);
      assert false;
    }
  }

  /** A class that is not an array reaches a target other than itself and `Object` through a direct supertype. */
  lemma SupertypeToward(ct: ClassTable, c: ClassId, to: ClassId) returns (t: Type)
    requires !IsArrayClass(ct, c) && c != to && to != ct.objectClass && SubclassOf(ct, c, to)
    ensures t in DirectSupertypes(ct, c) && RawClass(t).Some? && SubclassOf(ct, RawClass(t).value, to)
  {
    var s :| s in SuperIds(ct, c) && Depth(ct, s) < Depth(ct, c) && SubclassOf(ct, s, to);
    t :| t in DirectSupertypes(ct, c) && RawClass(t).Some? && RawClass(t).value == s;
  }

  /** A generic interface whose class reaches a target other than `Object` qualifies for an interface target. */
  lemma InterfaceLeads(ct: ClassTable, c: ClassId, to: ClassId, t: Type)
    requires SupertypesBelow(ct) && HierarchyShaped(ct)
    requires t in Interfaces(ct, c) && RawClass(t).Some? && SubclassOf(ct, RawClass(t).value, to)
    requires to != ct.objectClass && !IsPrimitive(ct, to)
    ensures IsInterface(ct, to) && ClassToClass(ct, RawClass(t).value, to) && !IsPrimitive(ct, RawClass(t).value)
  {
    var s := RawClass(t).value;
    assert t in DirectSupertypes(ct, c);
    SupertypeIsReference(ct, c, t);
    assert IsInterface(ct, s);
    InterfaceReach(ct, s, to);
    ReferenceAssignable(ct, s, to);
  }

  /**
   * One step of the climb keeps the invariant: when a reference class that is not an array
   * is assignable to a reference target, the parent type `getClosestParentType` picks is a
   * (parameterized) reference class, not an array, that is still assignable to the target.
   */
  lemma ClosestParentStaysAssignable(ct: ClassTable, c: ClassId, to: ClassId, p: Type)
    requires ValidTable(ct)
    requires !IsPrimitive(ct, c) && !IsArrayClass(ct, c) && !IsPrimitive(ct, to)
    requires c != to && ClassToClass(ct, c, to)
    requires ClosestParentType(ct, c, to) == Ok(Some(p))
    ensures p.Cls? || p.Param?
    ensures !IsPrimitive(ct, RawClass(p).value) && !IsArrayClass(ct, RawClass(p).value)
    ensures ClassToClass(ct, RawClass(p).value, to)
  {
    var ifs := Interfaces(ct, c);
    var best := BestInterface(ct, ifs, to, |ifs|);
    BestInterfaceCandidate(ct, ifs, to, |ifs|);
    if IsInterface(ct, to) && best.Ok? && best.value.Some? {
      assert p in ifs;
      SupertypeIsReference(ct, c, p);
    } else {
      assert Superclass(ct, c) == Some(p);
      SupertypeIsReference(ct, c, p);
      var raw := RawClass(p).value;
      ReferenceAssignable(ct, raw, to);
      if to != ct.objectClass {
        ReferenceAssignable(ct, c, to);
        if IsInterface(ct, to) {
          assert best == Ok(None);
        }
        SuperclassLeadsToTarget(ct, c, to, p);
      }
    }
  }

  /**
   * `getTypeArguments` on a class or parameterized type that is not an array, towards a
   * reference class: when it returns, it returns `null` exactly when the class (boxed, if
   * primitive) is not assignable to the target.
   */
  lemma {:induction false} TypeArgumentsNullIff(ct: ClassTable, t: Type, to: ClassId, seed: Option<Assigns>, fuel: nat)
    requires ValidTable(ct)
    requires t.Cls? || t.Param?
    requires !IsArrayClass(ct, RawClass(t).value) && !IsPrimitive(ct, to)
    ensures TypeArguments(ct, Some(t), to, seed, fuel).Ok? ==>
              (TypeArguments(ct, Some(t), to, seed, fuel).value.None? <==> !ClassToClass(ct, RawClass(t).value, to))
    decreases fuel, 2
  {
    if t.Cls? {
      ClassNullIff(ct, t.id, to, seed, fuel);
    } else {
      ParameterizedNullIff(ct, t, to, seed, fuel);
    }
  }

  /** The climb from an assignable reference class never ends in `null`. */
  lemma {:induction false} ParentNonNull(ct: ClassTable, c: ClassId, to: ClassId, m: Assigns, fuel: nat)
    requires ValidTable(ct)
    requires !IsPrimitive(ct, c) && !IsArrayClass(ct, c) && !IsPrimitive(ct, to)
    requires c != to && ClassToClass(ct, c, to) && fuel > 0
    ensures ClosestParentType(ct, c, to).Ok? ==>
              var r := TypeArguments(ct, ClosestParentType(ct, c, to).value, to, Some(m), fuel - 1);
              r.Ok? ==> r.value.Some?
    decreases fuel, 0
  {
    var next := ClosestParentType(ct, c, to);
    if next.Ok? && next.value.Some? {
      var p := next.value.value;
      ClosestParentStaysAssignable(ct, c, to, p);
      TypeArgumentsNullIff(ct, p, to, Some(m), fuel - 1);
    }
  }

  /** A primitive class has no parent to climb to. */
  lemma PrimitiveHasNoParent(ct: ClassTable, c: ClassId, to: ClassId)
    requires ValidTable(ct) && IsPrimitive(ct, c)
    ensures ClosestParentType(ct, c, to) == Ok(None)
  {
    assert |DirectSupertypes(ct, c)| == 0;
    assert Interfaces(ct, c) == [] && Superclass(ct, c).None?;
  }

  /** `getTypeArguments(Class, Class, Map)`: `null` exactly when the class is not assignable, boxing included. */
  lemma {:induction false} ClassNullIff(ct: ClassTable, c: ClassId, to: ClassId, seed: Option<Assigns>, fuel: nat)
    requires ValidTable(ct)
    requires !IsArrayClass(ct, c) && !IsPrimitive(ct, to)
    ensures ClassTypeArguments(ct, c, to, seed, fuel).Ok? ==>
              (ClassTypeArguments(ct, c, to, seed, fuel).value.None? <==> !ClassToClass(ct, c, to))
    decreases fuel, 1
  {
    if ClassToClass(ct, c, to) {
      var cls := if IsPrimitive(ct, c) then PrimitiveToWrapper(ct, c) else c;
      if IsPrimitive(ct, c) {
        assert Info(ct, c).wrapper.Some? && cls == Info(ct, c).wrapper.value;
        assert ClassToClass(ct, cls, to);
      }
      if cls != to && fuel > 0 {
        ParentNonNull(ct, cls, to, CopyOf(seed), fuel);
      }
    }
  }

  /** `getTypeArguments(ParameterizedType, Class, Map)`: `null` exactly when the raw class is not assignable. */
  lemma {:induction false} ParameterizedNullIff(ct: ClassTable, p: Type, to: ClassId, seed: Option<Assigns>, fuel: nat)
    requires ValidTable(ct)
    requires p.Param? && !IsArrayClass(ct, p.raw) && !IsPrimitive(ct, to)
    ensures ParameterizedTypeArguments(ct, p, to, seed, fuel).Ok? ==>
              (ParameterizedTypeArguments(ct, p, to, seed, fuel).value.None? <==> !ClassToClass(ct, p.raw, to))
    decreases fuel, 1
  {
    var c := p.raw;
    if ClassToClass(ct, c, to) && c != to && fuel > 0 {
      var next := ClosestParentType(ct, c, to);
      if IsPrimitive(ct, c) {
        PrimitiveHasNoParent(ct, c, to);
      }
      var params := TypeParams(ct, c);
      var start := if p.owner.Some? && p.owner.value.Param?
                   then ParameterizedTypeArguments(ct, p.owner.value, p.owner.value.raw, seed, fuel - 1)
                   else Ok(Some(CopyOf(seed)));
      if start.Ok? && start.value.Some? && |params| <= |p.args| {
        var m := BindParams(start.value.value, params, p.args, |params|);
        assert ParameterizedTypeArguments(ct, p, to, seed, fuel) == match next
                    case Err(e) => Err(e)
                    case Ok(parent) => TypeArguments(ct, parent, to, Some(m), fuel - 1);
        if !IsPrimitive(ct, c) {
          ParentNonNull(ct, c, to, m, fuel);
        }
      }
    }
  }

  /**
   * `getTypeArguments` of a parameterized type towards its own raw class, given what its owner
   * resolves to (the owner's own bindings when the owner is a parameterized type, a copy of
   * the seed otherwise): those bindings, plus every declared type parameter bound, position by
   * position, to its argument (or to that argument's existing binding), every other entry
   * kept, and every key of the seed still present.
   */
  lemma ParameterizedBindsParameters(ct: ClassTable, p: Type, seed: Option<Assigns>, fuel: nat, m0: Assigns) returns (r: Assigns)
    requires p.Param? && |TypeParams(ct, p.raw)| <= |p.args|
    requires if p.owner.Some? && p.owner.value.Param?
             then fuel > 0 && TypeArguments(ct, p.owner, p.owner.value.raw, seed, fuel - 1) == Ok(Some(m0))
             else m0 == CopyOf(seed)
    ensures TypeArguments(ct, Some(p), p.raw, seed, fuel) == Ok(Some(r))
    ensures r.Keys == m0.Keys + set i | 0 <= i < |TypeParams(ct, p.raw)| :: TypeParams(ct, p.raw)[i]
    ensures CopyOf(seed).Keys <= r.Keys
    ensures forall k :: k in m0 && k !in TypeParams(ct, p.raw) ==> k in r && r[k] == m0[k]
    ensures (forall a, b :: 0 <= a < b < |TypeParams(ct, p.raw)| ==> TypeParams(ct, p.raw)[a] != TypeParams(ct, p.raw)[b]) ==>
              forall i :: 0 <= i < |TypeParams(ct, p.raw)| && !(p.args[i].TVar? && p.args[i].v in TypeParams(ct, p.raw)) ==>
                r[TypeParams(ct, p.raw)[i]] == ArgumentFor(m0, p.args[i])
  {
    var params := TypeParams(ct, p.raw);
    r := BindParams(m0, params, p.args, |params|);
    OwnResolutionUnfolds(ct, p, seed, fuel, m0);
    BindParamsKeys(m0, params, p.args, |params|);
    if p.owner.Some? && p.owner.value.Param? {
      OwnResolutionKeepsSeed(ct, p.owner.value, seed, fuel - 1);
    }
    forall k | k in m0 && k !in params
      ensures k in r && r[k] == m0[k]
    {
      BindParamsKeepsOthers(m0, params, p.args, |params|, k);
    }
    if forall a, b :: 0 <= a < b < |params| ==> params[a] != params[b] {
      forall i | 0 <= i < |params| && !(p.args[i].TVar? && p.args[i].v in params)
        ensures r[params[i]] == ArgumentFor(m0, p.args[i])
      {
        BindParamsPositional(m0, params, p.args, |params|, i);
      }
    }
  }

  /** The own resolution of a parameterized type is the `put` loop run over its owner's bindings. */
  lemma OwnResolutionUnfolds(ct: ClassTable, p: Type, seed: Option<Assigns>, fuel: nat, m0: Assigns)
    requires p.Param? && |TypeParams(ct, p.raw)| <= |p.args|
    requires if p.owner.Some? && p.owner.value.Param?
             then fuel > 0 && TypeArguments(ct, p.owner, p.owner.value.raw, seed, fuel - 1) == Ok(Some(m0))
             else m0 == CopyOf(seed)
    ensures TypeArguments(ct, Some(p), p.raw, seed, fuel) ==
              Ok(Some(BindParams(m0, TypeParams(ct, p.raw), p.args, |TypeParams(ct, p.raw)|)))
  {
    assert ParameterizedTypeArguments(ct, p, p.raw, seed, fuel) ==
             Ok(Some(BindParams(m0, TypeParams(ct, p.raw), p.args, |TypeParams(ct, p.raw)|)));
  }

  /**
   * A successful own resolution of a parameterized type had enough arguments and started
   * from its owner's bindings (a copy of the seed when the owner is not parameterized).
   */
  lemma OwnStart(ct: ClassTable, p: Type, seed: Option<Assigns>, fuel: nat) returns (m0: Assigns)
    requires p.Param?
    requires ParameterizedTypeArguments(ct, p, p.raw, seed, fuel).Ok?
    requires ParameterizedTypeArguments(ct, p, p.raw, seed, fuel).value.Some?
    ensures |TypeParams(ct, p.raw)| <= |p.args|
    ensures if p.owner.Some? && p.owner.value.Param?
            then fuel > 0 && TypeArguments(ct, p.owner, p.owner.value.raw, seed, fuel - 1) == Ok(Some(m0))
            else m0 == CopyOf(seed)
  {
    var start := if p.owner.Some? && p.owner.value.Param?
                 then (if fuel == 0 then Err(OutOfFuel) else ParameterizedTypeArguments(ct, p.owner.value, p.owner.value.raw, seed, fuel - 1))
                 else Ok(Some(CopyOf(seed)));
    m0 := start.value.value;
  }

  /** Resolving a parameterized type towards its own raw class never drops a key of the seed. */
  lemma {:induction false} OwnResolutionKeepsSeed(ct: ClassTable, p: Type, seed: Option<Assigns>, fuel: nat)
    requires p.Param?
    ensures var r := ParameterizedTypeArguments(ct, p, p.raw, seed, fuel);
            r.Ok? && r.value.Some? ==> CopyOf(seed).Keys <= r.value.value.Keys
    decreases p
  {
    var r := ParameterizedTypeArguments(ct, p, p.raw, seed, fuel);
    if r.Ok? && r.value.Some? {
      var m0 := OwnStart(ct, p, seed, fuel);
      var params := TypeParams(ct, p.raw);
      OwnResolutionUnfolds(ct, p, seed, fuel, m0);
      if p.owner.Some? && p.owner.value.Param? {
        OwnResolutionKeepsSeed(ct, p.owner.value, seed, fuel - 1);
        assert TypeArguments(ct, p.owner, p.owner.value.raw, seed, fuel - 1) ==
                 ParameterizedTypeArguments(ct, p.owner.value, p.owner.value.raw, seed, fuel - 1);
      }
      BindParamsKeys(m0, params, p.args, |params|);
    }
  }

  /**
   * On a well-formed table, whatever the owner resolves to: a parameterized type resolved
   * towards its own raw class binds each declared parameter whose argument is not a variable
   * to that argument.
   */
  lemma ConcreteArgumentsBound(ct: ClassTable, p: Type, seed: Option<Assigns>, fuel: nat)
    requires VariablesDeclared(ct) && p.Param?
    ensures var r := TypeArguments(ct, Some(p), p.raw, seed, fuel);
            r.Ok? && r.value.Some? ==>
              forall i :: 0 <= i < |TypeParams(ct, p.raw)| && i < |p.args| && !p.args[i].TVar? ==>
                TypeParams(ct, p.raw)[i] in r.value.value && r.value.value[TypeParams(ct, p.raw)[i]] == p.args[i]
  {
    var r := TypeArguments(ct, Some(p), p.raw, seed, fuel);
    if r.Ok? && r.value.Some? {
      assert r == ParameterizedTypeArguments(ct, p, p.raw, seed, fuel);
      var m0 := OwnStart(ct, p, seed, fuel);
      var b := ParameterizedBindsParameters(ct, p, seed, fuel, m0);
    }
  }

  /* ---------------------------------------------------------------- the climb keeps bindings */

  /**
   * A variable the climb from depth `d` upwards never binds: one declared by a method, or by
   * a class at depth `d` or more (the climb only binds parameters of strictly higher classes).
   */
  predicate OutsideClimb(ct: ClassTable, k: VarId, d: nat) {
    VarDecl(ct, k).None? || Depth(ct, VarDecl(ct, k).value) >= d
  }

  lemma {:induction false} OwnersBelowWiden(ct: ClassTable, t: Type, d: nat, e: nat)
    requires OwnersBelow(ct, t, d) && d <= e
    ensures OwnersBelow(ct, t, e)
    decreases t
  {
    if t.Param? && t.owner.Some? && t.owner.value.Param? {
      OwnersBelowWiden(ct, t.owner.value, d, e);
    }
  }

  /** A direct supertype of a class below depth `d` lies below `d` too, owners included. */
  lemma SupertypeBelow(ct: ClassTable, c: ClassId, q: Type, d: nat)
    requires SupertypesBelow(ct) && q in DirectSupertypes(ct, c) && Depth(ct, c) < d
    ensures q.Cls? || q.Param?
    ensures !IsPrimitive(ct, RawClass(q).value) && Depth(ct, RawClass(q).value) < d && OwnersBelow(ct, q, d)
  {
    OwnersBelowWiden(ct, q, Depth(ct, c), d);
  }

  /** What the climb keeps of its incoming map `m`: every key, and every entry outside the climb from `d`. */
  predicate Keeps(ct: ClassTable, m: Assigns, r: Result<Option<Assigns>>, d: nat) {
    r.Ok? && r.value.Some? ==>
      && m.Keys <= r.value.value.Keys
      && forall k :: k in m && OutsideClimb(ct, k, d) ==> r.value.value[k] == m[k]
  }

  /**
   * The climb of `getTypeArguments` from a (parameterized) class below depth `d`, seeded with
   * `m`, keeps every key of `m` and every entry for a variable it never binds: it only binds
   * the parameters of the classes it passes through, all of which lie below `d`.
   */
  lemma {:induction false} ClimbKeeps(ct: ClassTable, t: Type, to: ClassId, m: Assigns, fuel: nat, d: nat)
    requires SupertypesBelow(ct) && VariablesDeclared(ct)
    requires t.Cls? || t.Param?
    requires t.Cls? ==> !IsPrimitive(ct, t.id)
    requires Depth(ct, RawClass(t).value) < d && OwnersBelow(ct, t, d)
    ensures Keeps(ct, m, TypeArguments(ct, Some(t), to, Some(m), fuel), d)
    decreases fuel, 2
  {
    if t.Cls? {
      ClassClimbKeeps(ct, t.id, to, m, fuel, d);
    } else {
      BindingClimbKeeps(ct, t, to, m, fuel, d);
    }
  }

  /** One step up from class `c`: the climb from the parent chosen keeps what it is given. */
  lemma {:induction false} ParentClimbKeeps(ct: ClassTable, c: ClassId, to: ClassId, m: Assigns, fuel: nat, d: nat)
    requires SupertypesBelow(ct) && VariablesDeclared(ct)
    requires Depth(ct, c) < d && fuel > 0
    ensures ClosestParentType(ct, c, to).Ok? ==>
              Keeps(ct, m, TypeArguments(ct, ClosestParentType(ct, c, to).value, to, Some(m), fuel - 1), d)
    decreases fuel, 0
  {
    var next := ClosestParentType(ct, c, to);
    if next.Ok? && next.value.Some? {
      SupertypeBelow(ct, c, next.value.value, d);
      ClimbKeeps(ct, next.value.value, to, m, fuel - 1, d);
    }
  }

  /** `ClimbKeeps` for a reference class. */
  lemma {:induction false} ClassClimbKeeps(ct: ClassTable, c: ClassId, to: ClassId, m: Assigns, fuel: nat, d: nat)
    requires SupertypesBelow(ct) && VariablesDeclared(ct)
    requires !IsPrimitive(ct, c) && Depth(ct, c) < d
    ensures Keeps(ct, m, ClassTypeArguments(ct, c, to, Some(m), fuel), d)
    decreases fuel, 1
  {
    if ClassToClass(ct, c, to) && c != to && fuel > 0 {
      ParentClimbKeeps(ct, c, to, m, fuel, d);
      assert CopyOf(Some(m)) == m;
    }
  }

  /** `ClimbKeeps` for a parameterized type: its owners and its own parameters all lie below `d`. */
  lemma {:induction false} BindingClimbKeeps(ct: ClassTable, t: Type, to: ClassId, m: Assigns, fuel: nat, d: nat)
    requires SupertypesBelow(ct) && VariablesDeclared(ct)
    requires t.Param? && Depth(ct, t.raw) < d && OwnersBelow(ct, t, d)
    ensures Keeps(ct, m, ParameterizedTypeArguments(ct, t, to, Some(m), fuel), d)
    decreases fuel, 1
  {
    var c := t.raw;
    var params := TypeParams(ct, c);
    var ownerParam := t.owner.Some? && t.owner.value.Param?;
    var start := if ownerParam
                 then (if fuel == 0 then Err(OutOfFuel) else ParameterizedTypeArguments(ct, t.owner.value, t.owner.value.raw, Some(m), fuel - 1))
                 else Ok(Some(CopyOf(Some(m))));
    if ClassToClass(ct, c, to) && start.Ok? && start.value.Some? && |params| <= |t.args| {
      var m0 := start.value.value;
      if ownerParam {
        ClimbKeeps(ct, t.owner.value, t.owner.value.raw, m, fuel - 1, d);
        assert TypeArguments(ct, t.owner, t.owner.value.raw, Some(m), fuel - 1) == start;
      } else {
        assert m0 == m;
      }
      var m1 := BindParams(m0, params, t.args, |params|);
      BindParamsKeys(m0, params, t.args, |params|);
      forall k | k in m && OutsideClimb(ct, k, d)
        ensures k in m1 && m1[k] == m[k]
      {
        forall j | 0 <= j < |params|
          ensures params[j] != k
        {
          assert VarDecl(ct, params[j]) == Some(c);
        }
        BindParamsKeepsOthers(m0, params, t.args, |params|, k);
      }
      if c != to && fuel > 0 {
        ParentClimbKeeps(ct, c, to, m1, fuel, d);
      }
    }
  }

  /**
   * `getTypeArguments` of a parameterized type towards any target: when it returns a map, the
   * type's own resolution (towards its raw class) succeeded, and the climb above it kept every
   * key of it and every entry for a variable not declared above the type's class, among them
   * the type's own parameters.
   */
  lemma ParameterizedClimbKeeps(ct: ClassTable, p: Type, to: ClassId, seed: Option<Assigns>, fuel: nat)
    requires SupertypesBelow(ct) && VariablesDeclared(ct) && p.Param?
    ensures var r := TypeArguments(ct, Some(p), to, seed, fuel);
            var own := TypeArguments(ct, Some(p), p.raw, seed, fuel);
            r.Ok? && r.value.Some? ==>
              own.Ok? && own.value.Some? && Keeps(ct, own.value.value, r, Depth(ct, p.raw))
  {
    var r := TypeArguments(ct, Some(p), to, seed, fuel);
    if r.Ok? && r.value.Some? {
      var m := ParameterizedSteps(ct, p, to, seed, fuel);
      KeepsOwnResolution(ct, p.raw, to, m, r, fuel);
    }
  }

  /**
   * `ParameterizedClimbKeeps` once the own resolution of a type of class `c` is known to be
   * `m`: the answer `r` is `m` itself, or the climb from the parent chosen above `c`.
   */
  lemma KeepsOwnResolution(ct: ClassTable, c: ClassId, to: ClassId, m: Assigns, r: Result<Option<Assigns>>, fuel: nat)
    requires SupertypesBelow(ct) && VariablesDeclared(ct)
    requires c == to ==> r == Ok(Some(m))
    requires c != to ==>
               && fuel > 0
               && ClosestParentType(ct, c, to).Ok?
               && ClosestParentType(ct, c, to).value.Some?
               && r == TypeArguments(ct, ClosestParentType(ct, c, to).value, to, Some(m), fuel - 1)
    ensures Keeps(ct, m, r, Depth(ct, c))
  {
    if c == to {
      KeepsItself(ct, m, Depth(ct, c));
    } else {
      ClimbFromParent(ct, c, to, m, fuel - 1);
    }
  }

  /** A map keeps itself. */
  lemma KeepsItself(ct: ClassTable, m: Assigns, d: nat)
    ensures Keeps(ct, m, Ok(Some(m)), d)
  {
  }

  /** The climb from the parent type chosen above `c` keeps what `ClimbKeeps` promises from `c`'s depth. */
  lemma ClimbFromParent(ct: ClassTable, c: ClassId, to: ClassId, m: Assigns, fuel: nat)
    requires SupertypesBelow(ct) && VariablesDeclared(ct)
    requires ClosestParentType(ct, c, to).Ok? && ClosestParentType(ct, c, to).value.Some?
    ensures Keeps(ct, m, TypeArguments(ct, ClosestParentType(ct, c, to).value, to, Some(m), fuel), Depth(ct, c))
  {
    var q := ClosestParentType(ct, c, to).value.value;
    SupertypeIsReference(ct, c, q);
    OwnersBelowOfSupertype(ct, c, q);
    ClimbKeeps(ct, q, to, m, fuel, Depth(ct, c));
  }

  /**
   * A successful resolution of a parameterized type is its own resolution (towards its raw
   * class), giving `m`, followed, for another target, by the climb from the parent type chosen.
   */
  lemma ParameterizedSteps(ct: ClassTable, p: Type, to: ClassId, seed: Option<Assigns>, fuel: nat) returns (m: Assigns)
    requires p.Param?
    requires TypeArguments(ct, Some(p), to, seed, fuel).Ok? && TypeArguments(ct, Some(p), to, seed, fuel).value.Some?
    ensures TypeArguments(ct, Some(p), p.raw, seed, fuel) == Ok(Some(m))
    ensures p.raw == to ==> TypeArguments(ct, Some(p), to, seed, fuel) == Ok(Some(m))
    ensures p.raw != to ==>
              && fuel > 0
              && ClosestParentType(ct, p.raw, to).Ok?
              && ClosestParentType(ct, p.raw, to).value.Some?
              && TypeArguments(ct, Some(p), to, seed, fuel) == TypeArguments(ct, ClosestParentType(ct, p.raw, to).value, to, Some(m), fuel - 1)
  {
    var c := p.raw;
    var params := TypeParams(ct, c);
    var start := if p.owner.Some? && p.owner.value.Param?
                 then (if fuel == 0 then Err(OutOfFuel) else ParameterizedTypeArguments(ct, p.owner.value, p.owner.value.raw, seed, fuel - 1))
                 else Ok(Some(CopyOf(seed)));
    assert ClassToClass(ct, c, to) && start.Ok? && start.value.Some? && |params| <= |p.args|;
    m := BindParams(start.value.value, params, p.args, |params|);
    assert TypeArguments(ct, Some(p), c, seed, fuel) == Ok(Some(m));
    if c != to {
      var next := ClosestParentType(ct, c, to);
      assert fuel > 0;
      assert TypeArguments(ct, Some(p), to, seed, fuel) == match next
                  case Err(e) => Err(e)
                  case Ok(parent) => TypeArguments(ct, parent, to, Some(m), fuel - 1);
    }
  }

  /**
   * A parameterized type whose class reaches another target: any answer but an exception is
   * its own resolution followed by the climb from the parent type chosen.
   */
  lemma ParameterizedClimbs(ct: ClassTable, p: Type, to: ClassId, seed: Option<Assigns>, fuel: nat)
    requires p.Param? && p.raw != to && ClassToClass(ct, p.raw, to)
    ensures var r := TypeArguments(ct, Some(p), to, seed, fuel);
            var own := TypeArguments(ct, Some(p), p.raw, seed, fuel);
            r.Ok? ==>
              && own.Ok? && own.value.Some? && fuel > 0
              && ClosestParentType(ct, p.raw, to).Ok?
              && r == TypeArguments(ct, ClosestParentType(ct, p.raw, to).value, to, Some(own.value.value), fuel - 1)
  {
    var r := TypeArguments(ct, Some(p), to, seed, fuel);
    assert r == ParameterizedTypeArguments(ct, p, to, seed, fuel);
    var params := TypeParams(ct, p.raw);
    var start := if p.owner.Some? && p.owner.value.Param?
                 then (if fuel == 0 then Err(OutOfFuel) else ParameterizedTypeArguments(ct, p.owner.value, p.owner.value.raw, seed, fuel - 1))
                 else Ok(Some(CopyOf(seed)));
    if r.Ok? {
      assert start.Ok? && start.value.Some? && |params| <= |p.args|;
      OwnResolutionUnfolds(ct, p, seed, fuel, start.value.value);
    }
  }

  /** On a well-formed table a direct supertype lies below its subclass, owners included. */
  lemma OwnersBelowOfSupertype(ct: ClassTable, c: ClassId, q: Type)
    requires SupertypesBelow(ct) && q in DirectSupertypes(ct, c)
    ensures Depth(ct, RawClass(q).value) < Depth(ct, c) && OwnersBelow(ct, q, Depth(ct, c))
  {
  }

  /**
   * `getTypeArguments(p, toClass)` on a well-formed table: when it returns a map, each
   * parameter of `p`'s class whose argument is not a variable is still bound to that argument
   * at the end of the climb.
   */
  lemma ArgumentsSurviveClimb(ct: ClassTable, p: Type, to: ClassId, seed: Option<Assigns>, fuel: nat)
    requires SupertypesBelow(ct) && VariablesDeclared(ct) && p.Param?
    ensures var r := TypeArguments(ct, Some(p), to, seed, fuel);
            r.Ok? && r.value.Some? ==>
              forall i :: 0 <= i < |TypeParams(ct, p.raw)| && i < |p.args| && !p.args[i].TVar? ==>
                TypeParams(ct, p.raw)[i] in r.value.value && r.value.value[TypeParams(ct, p.raw)[i]] == p.args[i]
  {
    ParameterizedClimbKeeps(ct, p, to, seed, fuel);
    ConcreteArgumentsBound(ct, p, seed, fuel);
    var params := TypeParams(ct, p.raw);
    forall i | 0 <= i < |params|
      ensures OutsideClimb(ct, params[i], Depth(ct, p.raw))
    {
      assert VarDecl(ct, params[i]) == Some(p.raw);
    }
  }

  /* ---------------------------------------------------------------- one step through a parent */

  /** A parameterized type resolved towards its own raw class is never `null`. */
  lemma OwnResolutionNotNull(ct: ClassTable, q: Type, seed: Option<Assigns>, fuel: nat)
    requires q.Param?
    ensures TypeArguments(ct, Some(q), q.raw, seed, fuel) != Ok(None)
  {
  }

  /**
   * A (parameterized) reference class resolved towards a class `d` when the parent the climb
   * picks is a parameterization `q` of `d`: the result, when there is one, is not `null`, and
   * it is `q` resolved with the type's own bindings (for a class, a copy of the seed).
   */
  lemma ResolvedThroughParent(ct: ClassTable, a: Type, d: ClassId, seed: Option<Assigns>, fuel: nat, q: Type) returns (m: Assigns)
    requires SupertypesBelow(ct)
    requires (a.Cls? || a.Param?) && !IsPrimitive(ct, RawClass(a).value) && RawClass(a).value != d
    requires ClosestParentType(ct, RawClass(a).value, d) == Ok(Some(q)) && q.Param? && q.raw == d
    ensures a.Cls? ==> m == CopyOf(seed)
    ensures var res := TypeArguments(ct, Some(a), d, seed, fuel);
            res.Ok? ==>
              && res.value.Some? && fuel > 0
              && (a.Param? ==> TypeArguments(ct, Some(a), a.raw, seed, fuel) == Ok(Some(m)))
              && res == TypeArguments(ct, Some(q), d, Some(m), fuel - 1)
  {
    var sub := RawClass(a).value;
    assert ClassToClass(ct, sub, d) by {
      assert q in DirectSupertypes(ct, sub);
      assert d in SuperIds(ct, sub);
      assert SubclassOf(ct, sub, d);
    }
    m := CopyOf(seed);
    if a.Param? {
      var own := TypeArguments(ct, Some(a), sub, seed, fuel);
      ParameterizedClimbs(ct, a, d, seed, fuel);
      if own.Ok? && own.value.Some? {
        m := own.value.value;
      }
    } else {
      assert TypeArguments(ct, Some(a), d, seed, fuel) == ClassTypeArguments(ct, sub, d, seed, fuel);
    }
    if fuel > 0 {
      OwnResolutionNotNull(ct, q, Some(m), fuel - 1);
    }
  }

  /**
   * A parameterized type resolved towards its own raw class, seeded with `m`: a parameter
   * whose argument is a variable `w` bound in `m`, declared neither by the type's class nor
   * by a class of its owners, receives `w`'s binding.
   */
  lemma SeededVariableArgument(ct: ClassTable, q: Type, m: Assigns, fuel: nat, i: nat, e: nat)
    requires SupertypesBelow(ct) && VariablesDeclared(ct)
    requires q.Param? && i < |TypeParams(ct, q.raw)| && i < |q.args| && q.args[i].TVar?
    requires q.args[i].v in m && q.args[i].v !in TypeParams(ct, q.raw)
    requires OwnersBelow(ct, q, e) && OutsideClimb(ct, q.args[i].v, e)
    ensures var r := TypeArguments(ct, Some(q), q.raw, Some(m), fuel);
            r.Ok? ==>
              && r.value.Some?
              && TypeParams(ct, q.raw)[i] in r.value.value
              && r.value.value[TypeParams(ct, q.raw)[i]] == m[q.args[i].v]
  {
    var params := TypeParams(ct, q.raw);
    var r := TypeArguments(ct, Some(q), q.raw, Some(m), fuel);
    OwnResolutionNotNull(ct, q, Some(m), fuel);
    if r.Ok? {
      assert r == ParameterizedTypeArguments(ct, q, q.raw, Some(m), fuel);
      var m0 := OwnStart(ct, q, Some(m), fuel);
      var w := q.args[i].v;
      if q.owner.Some? && q.owner.value.Param? {
        ClimbKeeps(ct, q.owner.value, q.owner.value.raw, m, fuel - 1, e);
      }
      assert w in m0 && m0[w] == m[w];
      var b := ParameterizedBindsParameters(ct, q, Some(m), fuel, m0);
    }
  }

  /**
   * `getTypeArguments` of a (parameterized) reference class towards a class `d`, when the
   * parent the climb picks is a parameterization `q` of `d` (`class StringList extends
   * ArrayList<String>`): `d`'s parameter `i` is bound to `q`'s argument `i` when that argument
   * is not a variable.
   */
  lemma ParentArgumentBound(ct: ClassTable, a: Type, q: Type, i: nat, fuel: nat)
    requires SupertypesBelow(ct) && VariablesDeclared(ct)
    requires (a.Cls? || a.Param?) && !IsPrimitive(ct, RawClass(a).value) && q.Param? && RawClass(a).value != q.raw
    requires ClosestParentType(ct, RawClass(a).value, q.raw) == Ok(Some(q))
    requires i < |TypeParams(ct, q.raw)| && i < |q.args| && !q.args[i].TVar?
    ensures var res := TypeArguments(ct, Some(a), q.raw, None, fuel);
            res.Ok? ==>
              && res.value.Some?
              && TypeParams(ct, q.raw)[i] in res.value.value
              && res.value.value[TypeParams(ct, q.raw)[i]] == q.args[i]
  {
    var m := ResolvedThroughParent(ct, a, q.raw, None, fuel, q);
    var res := TypeArguments(ct, Some(a), q.raw, None, fuel);
    if res.Ok? {
      assert res.value.Some? && res == TypeArguments(ct, Some(q), q.raw, Some(m), fuel - 1);
      ConcreteArgumentsBound(ct, q, Some(m), fuel - 1);
    }
  }

  /**
   * `getTypeArguments` of a parameterized type towards a class `d`, when the parent the climb
   * picks is a parameterization `q` of `d` that passes on the type's own parameter `j` as its
   * argument `i` (`class Box<T> extends ArrayList<T>`, against `Box<String>`): `d`'s parameter
   * `i` is bound to the type's argument `j` when that argument is not a variable.
   */
  lemma SubtypeArgumentBound(ct: ClassTable, a: Type, q: Type, i: nat, j: nat, fuel: nat)
    requires SupertypesBelow(ct) && VariablesDeclared(ct)
    requires a.Param? && !IsPrimitive(ct, a.raw) && q.Param? && a.raw != q.raw
    requires ClosestParentType(ct, a.raw, q.raw) == Ok(Some(q))
    requires i < |TypeParams(ct, q.raw)| && i < |q.args|
    requires j < |TypeParams(ct, a.raw)| && j < |a.args| && q.args[i] == TVar(TypeParams(ct, a.raw)[j]) && !a.args[j].TVar?
    ensures var res := TypeArguments(ct, Some(a), q.raw, None, fuel);
            res.Ok? ==>
              && res.value.Some?
              && TypeParams(ct, q.raw)[i] in res.value.value
              && res.value.value[TypeParams(ct, q.raw)[i]] == a.args[j]
  {
    var m := ResolvedThroughParent(ct, a, q.raw, None, fuel, q);
    var res := TypeArguments(ct, Some(a), q.raw, None, fuel);
    if res.Ok? {
      assert res == TypeArguments(ct, Some(q), q.raw, Some(m), fuel - 1);
      ConcreteArgumentsBound(ct, a, None, fuel);
      assert q in DirectSupertypes(ct, a.raw);
      PassedArgumentBound(ct, a, q, i, j, m, fuel - 1);
    }
  }

  /** The climb from the parent `q`, seeded with the type's own bindings, binds `q`'s parameter `i` as the type did. */
  lemma PassedArgumentBound(ct: ClassTable, a: Type, q: Type, i: nat, j: nat, m: Assigns, fuel: nat)
    requires SupertypesBelow(ct) && VariablesDeclared(ct)
    requires a.Param? && q.Param? && q in DirectSupertypes(ct, a.raw)
    requires i < |TypeParams(ct, q.raw)| && i < |q.args| && j < |TypeParams(ct, a.raw)|
    requires q.args[i] == TVar(TypeParams(ct, a.raw)[j]) && TypeParams(ct, a.raw)[j] in m
    ensures var r := TypeArguments(ct, Some(q), q.raw, Some(m), fuel);
            r.Ok? ==>
              && r.value.Some?
              && TypeParams(ct, q.raw)[i] in r.value.value
              && r.value.value[TypeParams(ct, q.raw)[i]] == m[TypeParams(ct, a.raw)[j]]
  {
    var w := TypeParams(ct, a.raw)[j];
    assert VarDecl(ct, w) == Some(a.raw);
    assert RawClass(q) == Some(q.raw) && Depth(ct, RawClass(q).value) < Depth(ct, a.raw);
    forall l | 0 <= l < |TypeParams(ct, q.raw)|
      ensures TypeParams(ct, q.raw)[l] != w
    {
      assert VarDecl(ct, TypeParams(ct, q.raw)[l]) == Some(q.raw);
    }
    SeededVariableArgument(ct, q, m, fuel, i, Depth(ct, a.raw));
  }
}
