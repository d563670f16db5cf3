/**
 * What `isAssignable` answers on a well-formed class table, beyond what each overload states:
 * every type variable reaches `Object`, subclassing among reference classes is transitive, and
 * the boxing rules of `ClassUtils.isAssignable` are not.
 */
module Subtyping {
  import opened Wrappers
  import opened TypeModel
  import opened TypeUtils
  import opened Resolution

  /**
   * A type variable whose first bound is a (parameterized) reference class, as every unbounded
   * variable's `Object` is, goes to `Object`.
   */
  lemma VariableToObject(ct: ClassTable, v: VarId, m: Option<Assigns>, fuel: nat)
    requires ValidTable(ct) && fuel > 0
    requires var b := DeclaredBounds(ct, v)[0]; (b.Cls? || b.Param?) && !IsPrimitive(ct, RawClass(b).value)
    ensures IsAssignable(ct, Some(TVar(v)), Some(Cls(ct.objectClass)), m, fuel) == Ok(true)
  {
    var b := DeclaredBounds(ct, v)[0];
    assert SubclassOf(ct, RawClass(b).value, ct.objectClass);
    assert ClassAssignable(ct, RawClass(b).value, ct.objectClass);
    assert AssignableToClass(ct, Some(b), Some(ct.objectClass), fuel - 1) == Ok(true);
    assert AnyBoundToClass(ct, DeclaredBounds(ct, v), ct.objectClass, fuel - 1) == Ok(true);
    assert AssignableToClass(ct, Some(TVar(v)), Some(ct.objectClass), fuel) == Ok(true);
  }

  /** `Object` reaches nothing but itself. */
  lemma ObjectIsRoot(ct: ClassTable, c: ClassId)
    requires ValidTable(ct) && SubclassOf(ct, ct.objectClass, c)
    ensures c == ct.objectClass
  {
    assert SuperIds(ct, ct.objectClass) == {};
  }

  /** Subclassing is transitive from a reference class that is not an array, through another. */
  lemma {:induction false} SubclassTransitive(ct: ClassTable, a: ClassId, b: ClassId, c: ClassId)
    requires ValidTable(ct)
    requires !IsPrimitive(ct, a) && !IsArrayClass(ct, a) && !IsArrayClass(ct, b)
    requires SubclassOf(ct, a, b) && SubclassOf(ct, b, c)
    ensures SubclassOf(ct, a, c)
    decreases Depth(ct, a)
  {
    if a != b {
      if b == ct.objectClass {
        ObjectIsRoot(ct, c);
      } else {
        var s :| s in SuperIds(ct, a) && Depth(ct, s) < Depth(ct, a) && SubclassOf(ct, s, b);
        var t :| t in DirectSupertypes(ct, a) && RawClass(t).Some? && RawClass(t).value == s;
        SubclassTransitive(ct, s, b, c);
      }
    }
  }

  /**
   * `isAssignable` between reference classes that are not arrays is transitive (the target
   * of the second step being a reference class too).
   */
  lemma AssignableTransitive(ct: ClassTable, a: ClassId, b: ClassId, c: ClassId, m: Option<Assigns>, fuel: nat)
    requires ValidTable(ct)
    requires !IsPrimitive(ct, a) && !IsPrimitive(ct, b) && !IsPrimitive(ct, c)
    requires !IsArrayClass(ct, a) && !IsArrayClass(ct, b)
    requires IsAssignable(ct, Some(Cls(a)), Some(Cls(b)), m, fuel) == Ok(true)
    requires IsAssignable(ct, Some(Cls(b)), Some(Cls(c)), m, fuel) == Ok(true)
    ensures IsAssignable(ct, Some(Cls(a)), Some(Cls(c)), m, fuel) == Ok(true)
  {
    assert SubclassOf(ct, a, b);
    assert SubclassOf(ct, b, c);
    SubclassTransitive(ct, a, b, c);
  }

  /* ---------------------------------------------------------------- boxing is not transitive */

  const Obj: ClassId := 0
  const Num: ClassId := 1
  const Int: ClassId := 2
  const IntBox: ClassId := 3
  const Long: ClassId := 4
  const LongBox: ClassId := 5

  /** `Object`, `Number`, `int`, `Integer`, `long` and `Long`, with `int` widening to `long`. */
  function BoxingTable(): ClassTable {
    var obj := ClassInfo(false, false, None, [], [], None, None, None, {}, 0);
    var num := ClassInfo(false, false, None, [], [], Some(Cls(Obj)), None, None, {}, 1);
    var prim := ClassInfo(true, false, None, [], [], None, Some(IntBox), None, {Long}, 0);
    var boxI := ClassInfo(false, false, None, [], [], Some(Cls(Num)), None, Some(Int), {}, 2);
    var primL := ClassInfo(true, false, None, [], [], None, Some(LongBox), None, {}, 0);
    var boxL := ClassInfo(false, false, None, [], [], Some(Cls(Num)), None, Some(Long), {}, 2);
    ClassTable(map[Obj := obj, Num := num, Int := prim, IntBox := boxI, Long := primL, LongBox := boxL],
               map[], Obj, map[])
  }

  /**
   * `Integer` goes to `long` (unboxed, then widened) and `long` goes to `Long` (boxed), but
   * `Integer` does not go to `Long`.
   */
  lemma BoxingNotTransitive(fuel: nat)
    ensures IsAssignable(BoxingTable(), Some(Cls(IntBox)), Some(Cls(Long)), None, fuel) == Ok(true)
    ensures IsAssignable(BoxingTable(), Some(Cls(Long)), Some(Cls(LongBox)), None, fuel) == Ok(true)
    ensures IsAssignable(BoxingTable(), Some(Cls(IntBox)), Some(Cls(LongBox)), None, fuel) == Ok(false)
  {
    var ct := BoxingTable();
    assert SuperIds(ct, Obj) == {};
    assert !SubclassOf(ct, Obj, LongBox);
    assert DirectSupertypes(ct, Num) == [Cls(Obj)];
    forall s | s in SuperIds(ct, Num) ensures s == Obj {
      var t :| t in DirectSupertypes(ct, Num) && RawClass(t).Some? && RawClass(t).value == s;
    }
    assert !SubclassOf(ct, Num, LongBox);
    assert DirectSupertypes(ct, IntBox) == [Cls(Num)];
    forall s | s in SuperIds(ct, IntBox) ensures s == Num {
      var t :| t in DirectSupertypes(ct, IntBox) && RawClass(t).Some? && RawClass(t).value == s;
    }
    assert !SubclassOf(ct, IntBox, LongBox);
  }
}
