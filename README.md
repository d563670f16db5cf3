# Generic type utilities of crnk-core, modelled in Dafny

This project models `TypeUtils`, the reflection helper of crnk-core that decides whether one
Java generic type may be used where another is expected, and resolves the type arguments a
class binds along its supertype chain. The model covers:

- the `isAssignable` overloads: one per target shape, each with its own rules for null,
  equality, bounds, wildcards and type variables;
- `getTypeArguments`, `getClosestParentType`, `determineTypeArguments` and
  `mapTypeVariablesToArguments`: building and pushing down variable-to-type maps;
- `normalizeUpperBounds` and the `getImplicit*Bounds` helpers;
- `substituteTypeVariables`, `unrollVariableAssignments` and `typesSatisfyVariables`;
- `getRawType(Type, Type)`, `isInstance`, `isArrayType` and `getArrayComponentType`;
- the `equals` family.

Java's reflective types become one datatype, `Type`. Its five shapes are class, parameterized
type, generic array, wildcard and type variable. Everything the JVM knows about classes is a
`ClassTable` value:

- primitive and interface flags;
- array components;
- type parameters, generic interfaces and generic superclass;
- boxing, unboxing and primitive widening;
- the bounds and the declaring class of every type variable.

Exceptions become `Err` values of a `Result`, and `null` becomes `None`.

The `isAssignable` / `getTypeArguments` / `normalizeUpperBounds` family recurses through
bounds taken from the table and through map values. That recursion is not structural, so
those members take a `fuel` bound and answer `Err(OutOfFuel)` when it runs out.

The source has three loops that are modelled as methods, each proved equal to the function
that specifies it:

- the `put` loop of `getTypeArguments`;
- the do-while of `unrollVariableAssignments`;
- the nested loop of `normalizeUpperBounds`.

The loop of `getClosestParentType` is a method too. `mapTypeVariablesToArguments` updates a
caller-owned map object in place.

The loop at lines 805-808 of `TypeUtils.java` replaces its candidate by a later interface
only when the candidate is assignable to it. Of two qualifying interfaces it therefore keeps
the more general one, the one "closest to the super class" in the words of the comment at
line 791 (`Hierarchy.MoreGeneralInterfaceChosen`).

All paths below are relative to the repository root. The one core file is
`crnk-core/src/main/java/io/crnk/core/engine/internal/utils/TypeUtils.java`.

## Model

| member | source | states |
|---|---|---|
| TypeModel.RawClass | crnk-core/src/main/java/io/crnk/core/engine/internal/utils/TypeUtils.java:970-983 | a class is its own raw class and a parameterized type has the raw class it was built from; generic arrays, wildcards and variables have none |
| TypeModel.ImplicitLowerBounds | crnk-core/src/main/java/io/crnk/core/engine/internal/utils/TypeUtils.java:927-931 | `{null}` when a wildcard declares no lower bound, otherwise exactly its declared lower bounds in order; never empty |
| TypeModel.IsArrayType | crnk-core/src/main/java/io/crnk/core/engine/internal/utils/TypeUtils.java:1066-1068 | only a generic array or a class can be an array type; null, parameterized types, wildcards and variables never are |
| TypeModel.ArrayComponentType | crnk-core/src/main/java/io/crnk/core/engine/internal/utils/TypeUtils.java:1075-1084 | a component exists exactly for the types `isArrayType` accepts: the generic component of a generic array, the component class of an array class |
| Variables.CopyOf | crnk-core/src/main/java/io/crnk/core/engine/internal/utils/TypeUtils.java:602-603 | the copy of the incoming map equals it; an absent map gives an empty one |
| Variables.Substitute | crnk-core/src/main/java/io/crnk/core/engine/internal/utils/TypeUtils.java:459-470 | with a map, a variable becomes its binding and a variable without one is an `IllegalArgumentException`; anything else, or anything without a map, is unchanged |
| Variables.Unroll | crnk-core/src/main/java/io/crnk/core/engine/internal/utils/TypeUtils.java:227-238 | an unbound variable unrolls to null; a variable met for the first time and bound to a non-variable unrolls to that binding; a cycle can only be entered through a bound variable |
| Variables.UnrollOutcome | crnk-core/src/main/java/io/crnk/core/engine/internal/utils/TypeUtils.java:227-238 | the lookup ends in null (unmapped variable), a non-variable, or a variable mapped to itself; the result is a value of the map; the only failure is a cycle |
| Variables.UnrollTwoCycle | crnk-core/src/main/java/io/crnk/core/engine/internal/utils/TypeUtils.java:229-236 | two variables bound to each other make the lookup loop forever |
| Variables.UnrollVariableAssignments | crnk-core/src/main/java/io/crnk/core/engine/internal/utils/TypeUtils.java:227-238 | the do-while loop, on a chain without a cycle, returns the unrolled binding, which is one of the three outcomes above |
| Variables.BindParamsKeys | crnk-core/src/main/java/io/crnk/core/engine/internal/utils/TypeUtils.java:612-616 | after the `put` loop the keys are the incoming keys plus every declared type parameter |
| Variables.BindParamsKeepsOthers | crnk-core/src/main/java/io/crnk/core/engine/internal/utils/TypeUtils.java:612-616 | entries for variables that are not parameters of the class survive the loop unchanged |
| Variables.BindParamsPositional | crnk-core/src/main/java/io/crnk/core/engine/internal/utils/TypeUtils.java:612-616 | parameter `i` is bound to argument `i`, or to that argument's existing binding when the argument is a bound variable |
| Variables.BindTypeParameters | crnk-core/src/main/java/io/crnk/core/engine/internal/utils/TypeUtils.java:607-616 | the `put` loop over a copy of the map computes exactly the positional binding above |
| Hierarchy.BestInterface | crnk-core/src/main/java/io/crnk/core/engine/internal/utils/TypeUtils.java:795-810 | an interface that is neither a class nor a parameterized type makes the scan fail |
| Hierarchy.BestInterfaceCandidate | crnk-core/src/main/java/io/crnk/core/engine/internal/utils/TypeUtils.java:789-810 | the interface the loop keeps is one of the scanned generic interfaces and its class is assignable to the target; when it keeps none, no scanned interface of a reference class was assignable; when it succeeds, every interface was a class or a parameterized type |
| Hierarchy.BestInterfaceFailure | crnk-core/src/main/java/io/crnk/core/engine/internal/utils/TypeUtils.java:795-802 | the loop fails only with `IllegalStateException`, on an interface that is neither a class nor a parameterized type |
| Hierarchy.ClosestParentType | crnk-core/src/main/java/io/crnk/core/engine/internal/utils/TypeUtils.java:783-821 | the parent is a direct generic supertype; a class target always gets the generic superclass; for an interface target, when some generic interface of a reference class assignable to the target exists, the result is such an interface that no later qualifying interface replaced (the candidate is not assignable to any of them), and otherwise the superclass; the only failure is `IllegalStateException` |
| Hierarchy.MoreGeneralInterfaceChosen | crnk-core/src/main/java/io/crnk/core/engine/internal/utils/TypeUtils.java:789-810 | of two qualifying generic interfaces, one extending the other, the scan settles on the more general one in either declaration order |
| Hierarchy.GetClosestParentType | crnk-core/src/main/java/io/crnk/core/engine/internal/utils/TypeUtils.java:783-821 | the loop that updates `genericInterface` computes exactly `ClosestParentType` |
| TypeUtils.IsAssignable | crnk-core/src/main/java/io/crnk/core/engine/internal/utils/TypeUtils.java:45-449 | null goes to null and to every non-primitive type; only null goes to a null target; every type goes to itself; a wildcard never goes to a class, a parameterized type never to a generic array, and a non-variable never to a different variable |
| TypeUtils.AssignableToClass | crnk-core/src/main/java/io/crnk/core/engine/internal/utils/TypeUtils.java:91-147 | null goes to a null class and to every reference class, and nothing else goes to null; a class, or a parameterized type through its raw class, goes exactly when `ClassUtils.isAssignable` says so; a generic array goes to `Object` and to no other class that is not an array; a wildcard goes to no class |
| TypeUtils.AssignableToParameterized | crnk-core/src/main/java/io/crnk/core/engine/internal/utils/TypeUtils.java:158-217 | null and the target itself are assignable; any other source is assignable only when its type arguments towards the target's raw class resolve to a map |
| TypeUtils.AssignableToGenericArray | crnk-core/src/main/java/io/crnk/core/engine/internal/utils/TypeUtils.java:250-314 | null and the target itself are assignable; a parameterized type and a class that is not an array are not; an array is assignable exactly when its component is assignable to the target's component |
| TypeUtils.AssignableToWildcard | crnk-core/src/main/java/io/crnk/core/engine/internal/utils/TypeUtils.java:326-401 | null and the target itself are assignable; any other answer is reached only after the target's implicit upper bounds were computed |
| TypeUtils.AssignableToVariable | crnk-core/src/main/java/io/crnk/core/engine/internal/utils/TypeUtils.java:413-449 | null and the target variable itself are assignable; a source that is not a variable is not (a variable source is covered by `Assignability.VariableToVariable`) |
| TypeUtils.NormalizeUpperBounds | crnk-core/src/main/java/io/crnk/core/engine/internal/utils/TypeUtils.java:861-885 | the result never has more bounds than were given |
| TypeUtils.KeepUnsubsumed | crnk-core/src/main/java/io/crnk/core/engine/internal/utils/TypeUtils.java:867-882 | after `n` rounds of the outer loop at most `n` bounds are kept |
| TypeUtils.ImplicitBounds | crnk-core/src/main/java/io/crnk/core/engine/internal/utils/TypeUtils.java:896-899 | when any are declared, never more bounds than declared; empty only when at least two bounds were declared |
| TypeUtils.ImplicitUpperBounds | crnk-core/src/main/java/io/crnk/core/engine/internal/utils/TypeUtils.java:912-915 | when any are declared, never more bounds than declared; empty only when at least two upper bounds were declared |
| Assignability.AnyBoundToClassExists | crnk-core/src/main/java/io/crnk/core/engine/internal/utils/TypeUtils.java:119-129 | a variable goes to a class only through some declared bound that does; when no check fails, exactly when some bound does |
| Assignability.AnyAssignableExists | crnk-core/src/main/java/io/crnk/core/engine/internal/utils/TypeUtils.java:283-304 | the bound loops of the generic-array and variable targets answer true only through some bound that is assignable; when no check fails, exactly when one is |
| Assignability.AllToBoundForall | crnk-core/src/main/java/io/crnk/core/engine/internal/utils/TypeUtils.java:359-363 | the inner loop over a source wildcard's upper bounds succeeds only if every bound is assignable; when no check fails, exactly then |
| Assignability.BoundToAllForall | crnk-core/src/main/java/io/crnk/core/engine/internal/utils/TypeUtils.java:374-378 | the inner loop over a source wildcard's lower bounds succeeds only if the target bound goes to each of them; when no check fails, exactly then |
| Assignability.ArgumentsCompatibleForall | crnk-core/src/main/java/io/crnk/core/engine/internal/utils/TypeUtils.java:198-216 | the loop over the target's variables succeeds exactly when every variable's arguments are compatible (absent, class against an absent target argument, equal, or within the target's wildcard) |
| Assignability.ParameterizedTarget | crnk-core/src/main/java/io/crnk/core/engine/internal/utils/TypeUtils.java:158-217 | a source whose class does not reach the target's raw class is not assignable; an empty resolved map is assignable (raw types); otherwise assignable exactly when all target variables are compatible |
| Assignability.RawToParameterized | crnk-core/src/main/java/io/crnk/core/engine/internal/utils/TypeUtils.java:185-191 | a raw reference class is assignable to every parameterization of itself |
| Assignability.VariableToVariable | crnk-core/src/main/java/io/crnk/core/engine/internal/utils/TypeUtils.java:430-441 | a variable goes to a different variable exactly when one of its implicit bounds does; a failure to compute the bounds is passed on |
| Assignability.UpperBoundsCheckForall | crnk-core/src/main/java/io/crnk/core/engine/internal/utils/TypeUtils.java:351-364 | the loop over the target wildcard's upper bounds succeeds exactly when every bound, substituted, receives every source |
| Assignability.LowerBoundsCheckForall | crnk-core/src/main/java/io/crnk/core/engine/internal/utils/TypeUtils.java:366-379 | the loop over the target wildcard's lower bounds succeeds exactly when every bound, substituted, goes to every destination |
| Assignability.WithinWildcard | crnk-core/src/main/java/io/crnk/core/engine/internal/utils/TypeUtils.java:383-400 | a non-wildcard type goes to a wildcard exactly when it goes to each substituted upper bound and each substituted lower bound goes to it |
| Assignability.WildcardWithinWildcard | crnk-core/src/main/java/io/crnk/core/engine/internal/utils/TypeUtils.java:346-381 | a wildcard goes to a different wildcard exactly when its upper bounds go to the target's and the target's lower bounds go to its own |
| Subtyping.VariableToObject | crnk-core/src/main/java/io/crnk/core/engine/internal/utils/TypeUtils.java:119-129 | a type variable whose first bound is a reference class, as the `Object` bound of an unbounded variable is, goes to `Object` |
| Subtyping.SubclassTransitive | crnk-core/src/main/java/io/crnk/core/engine/internal/utils/TypeUtils.java:108-111 | on a well-formed table, subclassing is transitive from a reference class that is not an array through another class that is not an array |
| Subtyping.AssignableTransitive | crnk-core/src/main/java/io/crnk/core/engine/internal/utils/TypeUtils.java:45-111 | `isAssignable` between reference classes is transitive when the first two are not arrays |
| Subtyping.BoxingNotTransitive | crnk-core/src/main/java/io/crnk/core/engine/internal/utils/TypeUtils.java:108-111 | with boxing, `Integer` goes to `long` and `long` goes to `Long`, but `Integer` does not go to `Long` |
| Bounds.SubtypeFoundNone | crnk-core/src/main/java/io/crnk/core/engine/internal/utils/TypeUtils.java:870-877 | the inner loop finds no subtype exactly when no other bound is assignable to the current one |
| Bounds.KeepUnsubsumedMembers | crnk-core/src/main/java/io/crnk/core/engine/internal/utils/TypeUtils.java:867-882 | after each outer round the kept set holds, once each, exactly the visited bounds with no other bound assignable to them |
| Bounds.NormalizeUpperBoundsKeeps | crnk-core/src/main/java/io/crnk/core/engine/internal/utils/TypeUtils.java:861-885 | fewer than two bounds come back unchanged; otherwise a duplicate-free subset holding exactly the bounds no other bound is assignable to |
| Bounds.ImplicitBoundsShape | crnk-core/src/main/java/io/crnk/core/engine/internal/utils/TypeUtils.java:896-916 | `{Object}` when nothing is declared, the single declared bound itself, otherwise only declared bounds |
| Bounds.RawAndParameterizedBoundsVanish | crnk-core/src/main/java/io/crnk/core/engine/internal/utils/TypeUtils.java:861-885 | a raw class and a parameterization of it, being assignable to each other, both count as redundant and normalise to no bound |
| Bounds.NormalizeUpperBoundsLoop | crnk-core/src/main/java/io/crnk/core/engine/internal/utils/TypeUtils.java:861-885 | the nested loop with its `subtypeFound` flag computes exactly the normalised bounds, and passes on the first failure |
| Findings.AssignableToVariableAsWritten | crnk-core/src/main/java/io/crnk/core/engine/internal/utils/TypeUtils.java:413-449 | as written, a variable source never answers false for a different target variable: it answers true or fails |
| Findings.UnrelatedVariablesThrow | crnk-core/src/main/java/io/crnk/core/engine/internal/utils/TypeUtils.java:430-448 | two distinct unbounded variables (each with the single bound `Object`): the code as written throws `IllegalStateException`, the corrected overload answers false |
| Resolution.ClosestParentStaysAssignable | crnk-core/src/main/java/io/crnk/core/engine/internal/utils/TypeUtils.java:783-821 | on a well-formed table, the chosen parent of an assignable reference class is a non-array reference class still assignable to the target |
| Resolution.ParentNonNull | crnk-core/src/main/java/io/crnk/core/engine/internal/utils/TypeUtils.java:621-624 | on a well-formed table, the climb from the parent of an assignable reference class towards a reference target never ends in null |
| Resolution.ClassNullIff | crnk-core/src/main/java/io/crnk/core/engine/internal/utils/TypeUtils.java:635-666 | for a class that is not an array and a reference target, a result is null exactly when the class is not assignable, boxing included |
| Resolution.ParameterizedNullIff | crnk-core/src/main/java/io/crnk/core/engine/internal/utils/TypeUtils.java:582-625 | for a parameterized type whose class is not an array and a reference target, a result is null exactly when the raw class is not assignable |
| Resolution.TypeArgumentsNullIff | crnk-core/src/main/java/io/crnk/core/engine/internal/utils/TypeUtils.java:533-666 | on a well-formed table, for a class (primitive ones included) or parameterized type that is not an array and a reference target, a result is null exactly when the class is not assignable to the target |
| Resolution.ParameterizedBindsParameters | crnk-core/src/main/java/io/crnk/core/engine/internal/utils/TypeUtils.java:582-625 | resolving a parameterized type towards its own raw class starts from its owner's bindings (a copy of the seed without a parameterized owner), binds every declared parameter position by position, keeps every other entry, and keeps every key of the seed |
| Resolution.OwnResolutionKeepsSeed | crnk-core/src/main/java/io/crnk/core/engine/internal/utils/TypeUtils.java:582-616 | through any chain of owners, resolving a parameterized type towards its own raw class never drops a key of the seed |
| Resolution.ConcreteArgumentsBound | crnk-core/src/main/java/io/crnk/core/engine/internal/utils/TypeUtils.java:607-616 | whatever the owner resolved to, each parameter whose argument is not a variable is bound to that argument |
| Resolution.ClimbKeeps | crnk-core/src/main/java/io/crnk/core/engine/internal/utils/TypeUtils.java:533-666 | the climb from a class below a given depth keeps every key of the map it is seeded with, and every entry for a variable declared by no class it passes through |
| Resolution.ParameterizedClimbKeeps | crnk-core/src/main/java/io/crnk/core/engine/internal/utils/TypeUtils.java:582-625 | when the resolution of a parameterized type returns a map, its own resolution succeeded and the climb above it kept that map's keys and the entries of the type's own parameters and of everything declared below them |
| Resolution.ArgumentsSurviveClimb | crnk-core/src/main/java/io/crnk/core/engine/internal/utils/TypeUtils.java:582-625 | towards any target, each parameter of the type's class whose argument is not a variable is still bound to that argument at the end of the climb |
| Resolution.ResolvedThroughParent | crnk-core/src/main/java/io/crnk/core/engine/internal/utils/TypeUtils.java:582-666 | when the parent picked towards a class is a parameterization of that class, the result is that parent resolved with the type's own bindings (a copy of the seed for a class), and is not null |
| Resolution.SeededVariableArgument | crnk-core/src/main/java/io/crnk/core/engine/internal/utils/TypeUtils.java:607-616 | a parameter whose argument is a variable bound in the seed, and declared below the type, receives that variable's binding |
| Resolution.ParentArgumentBound | crnk-core/src/main/java/io/crnk/core/engine/internal/utils/TypeUtils.java:533-666 | `class StringList extends ArrayList<String>`: the target class's parameter `i` is bound to the parent's argument `i` when that argument is not a variable |
| Resolution.SubtypeArgumentBound | crnk-core/src/main/java/io/crnk/core/engine/internal/utils/TypeUtils.java:582-625 | `Box<String>` with `class Box<T> extends ArrayList<T>`: the target class's parameter receives the subtype's argument for the parameter it is handed |
| Resolver.MapArgs | crnk-core/src/main/java/io/crnk/core/engine/internal/utils/TypeUtils.java:760-772 | a supertype with more arguments than variables makes the loop fail (the array overrun) |
| Resolver.MapVariables | crnk-core/src/main/java/io/crnk/core/engine/internal/utils/TypeUtils.java:736-773 | the same for the type itself, after its owners |
| Resolver.MapArgsWithoutMap | crnk-core/src/main/java/io/crnk/core/engine/internal/utils/TypeUtils.java:760-772 | with a null map the loop fails or leaves null: it never makes a map |
| Resolver.MapVariablesWithoutMap | crnk-core/src/main/java/io/crnk/core/engine/internal/utils/TypeUtils.java:736-773 | the same along the owner chain |
| Resolver.MapArgsPropagates | crnk-core/src/main/java/io/crnk/core/engine/internal/utils/TypeUtils.java:760-772 | with a map and enough variables, the loop succeeds; it only writes the subclass's variables, only with values already in the map, and keeps other entries |
| Resolver.MapArgsPositional | crnk-core/src/main/java/io/crnk/core/engine/internal/utils/TypeUtils.java:760-772 | a subclass variable given as argument `i` receives the assignment of the supertype's variable `i` |
| Resolver.MapVariablesPropagates | crnk-core/src/main/java/io/crnk/core/engine/internal/utils/TypeUtils.java:736-773 | the same along the owner chain, owners first |
| Resolver.MapTypeVariablesToArguments | crnk-core/src/main/java/io/crnk/core/engine/internal/utils/TypeUtils.java:736-773 | updating the caller's map in place leaves it as `MapVariables` computes, or reports the exception it computes |
| Resolver.MappedThroughParent | crnk-core/src/main/java/io/crnk/core/engine/internal/utils/TypeUtils.java:736-773 | for a parent type of the class, the class's variable that is the last bare-variable argument at position `j` receives the assignment of the parent class's parameter `j` |
| Resolver.DetermineTypeArguments | crnk-core/src/main/java/io/crnk/core/engine/internal/utils/TypeUtils.java:695-726 | null when the class is not assignable to the supertype's raw class |
| Resolver.DetermineTypeArgumentsNullIff | crnk-core/src/main/java/io/crnk/core/engine/internal/utils/TypeUtils.java:695-726 | on a well-formed table, for a class that is not an array and a reference supertype, a result is null exactly when the class is not assignable to the supertype's raw class |
| Resolver.DirectParentPassesArgument | crnk-core/src/main/java/io/crnk/core/engine/internal/utils/TypeUtils.java:695-726 | when the parent the climb picks is itself a parameterization of the supertype's class, the class's variable at position `j` of it receives the supertype's argument `j` |
| Resolver.DetermineTypeArgumentsPassesArgument | crnk-core/src/main/java/io/crnk/core/engine/internal/utils/TypeUtils.java:670-726 | the inverse of `getTypeArguments`: a variable of the class handed on, position by position up the chain of parent types, to parameter `i` of the supertype's class receives the supertype's argument `i` when that argument is not a variable |
| RawTypes.RawType | crnk-core/src/main/java/io/crnk/core/engine/internal/utils/TypeUtils.java:997-999 | a null type is an `IllegalArgumentException` |
| RawTypes.RawTypeOf | crnk-core/src/main/java/io/crnk/core/engine/internal/utils/TypeUtils.java:997-1056 | classes and parameterized types give their raw class; wildcards, and variables without context or declared by a method, give null; a generic array gives an array class, or a `NullPointerException` when its component has no raw class |
| RawTypes.ConcreteRawTypeIgnoresContext | crnk-core/src/main/java/io/crnk/core/engine/internal/utils/TypeUtils.java:998-1051 | for types built from classes, parameterized types and generic arrays, the result depends neither on the assigning type nor on fuel, and fails only where an array cannot be made |
| RawTypes.VariableResolvedByArgument | crnk-core/src/main/java/io/crnk/core/engine/internal/utils/TypeUtils.java:1008-1041 | a class's variable, resolved against a parameterization of that class, has the raw class of the argument at its position |
| RawTypes.VariableResolvedThroughParent | crnk-core/src/main/java/io/crnk/core/engine/internal/utils/TypeUtils.java:1008-1041 | a variable of class `D`, resolved against a subtype whose parent towards `D` is a parameterization of `D`, has the raw class of that parent's argument at its position |
| RawTypes.VariableResolvedThroughSubtypeArgument | crnk-core/src/main/java/io/crnk/core/engine/internal/utils/TypeUtils.java:1008-1041 | a variable of class `D`, resolved against a parameterized subtype that hands one of its own parameters to `D`, has the raw class of the subtype's argument for that parameter |
| RawTypes.IsInstance | crnk-core/src/main/java/io/crnk/core/engine/internal/utils/TypeUtils.java:831-838 | nothing is an instance of null; null is an instance of every non-primitive type; against a class it is the class check; no value is an instance of a bare variable |
| RawTypes.InstanceOfOwnParameterization | crnk-core/src/main/java/io/crnk/core/engine/internal/utils/TypeUtils.java:831-838 | a value of a reference class is an instance of every parameterization of its class |
| RawTypes.TypesSatisfyVariables | crnk-core/src/main/java/io/crnk/core/engine/internal/utils/TypeUtils.java:946-961 | an empty map is satisfied |
| RawTypes.BoundsAdmitForall | crnk-core/src/main/java/io/crnk/core/engine/internal/utils/TypeUtils.java:952-958 | the inner loop succeeds exactly when the type goes to every substituted bound |
| RawTypes.EntriesSatisfyForall | crnk-core/src/main/java/io/crnk/core/engine/internal/utils/TypeUtils.java:949-960 | the outer loop succeeds exactly when every visited entry satisfies its variable |
| RawTypes.TypesSatisfyVariablesIff | crnk-core/src/main/java/io/crnk/core/engine/internal/utils/TypeUtils.java:946-961 | true exactly when every bound type goes to each implicit bound of its variable, substituted through the map |
| RawTypes.UnboundedVariableSatisfied | crnk-core/src/main/java/io/crnk/core/engine/internal/utils/TypeUtils.java:946-961 | a reference class bound to an unbounded variable (single bound `Object`) satisfies it |
| Equality.Equals | crnk-core/src/main/java/io/crnk/core/engine/internal/utils/TypeUtils.java:1096-1110 | reflexive; null equals only null |
| Equality.EqualsOf | crnk-core/src/main/java/io/crnk/core/engine/internal/utils/TypeUtils.java:1096-1155 | reflexive; types of different shapes are unequal; classes and variables equal only themselves; equal parameterized types share raw class and arity |
| Equality.OwnerEquals | crnk-core/src/main/java/io/crnk/core/engine/internal/utils/TypeUtils.java:1119-1127 | a null owner equals only a null owner |
| Equality.LowerBoundsEqual | crnk-core/src/main/java/io/crnk/core/engine/internal/utils/TypeUtils.java:1148-1155 | the implicit `{null}` lower bound equals only another `{null}` |
| Equality.TypesEqual | crnk-core/src/main/java/io/crnk/core/engine/internal/utils/TypeUtils.java:1164-1174 | arrays of different length are unequal; identical arrays are equal |
| Equality.TypesEqualPairwise | crnk-core/src/main/java/io/crnk/core/engine/internal/utils/TypeUtils.java:1164-1174 | two arrays are equal exactly when they have the same length and are pairwise equal |
| Equality.ParameterizedEquals | crnk-core/src/main/java/io/crnk/core/engine/internal/utils/TypeUtils.java:1119-1127 | different parameterized types are equal exactly when raw classes match, owners are equal and arguments are pairwise equal |
| Equality.EqualsStructural | crnk-core/src/main/java/io/crnk/core/engine/internal/utils/TypeUtils.java:1096-1174 | on types without wildcards, `equals` is exactly structural equality |
| Equality.ArgumentsStructural | crnk-core/src/main/java/io/crnk/core/engine/internal/utils/TypeUtils.java:1164-1174 | on argument lists without wildcards, array equality is exactly identity |
| Equality.EqualsSymmetricWithoutWildcards | crnk-core/src/main/java/io/crnk/core/engine/internal/utils/TypeUtils.java:1096-1139 | on types without wildcards, `equals` is symmetric |
| Equality.EqualsSymmetric | crnk-core/src/main/java/io/crnk/core/engine/internal/utils/TypeUtils.java:1096-1174 | `equals` is symmetric on all types, wildcards included |
| Equality.ExtendsObjectEqualsUnbounded | crnk-core/src/main/java/io/crnk/core/engine/internal/utils/TypeUtils.java:1148-1155 | `? extends Object` equals `?` |

## Left out

- The three other files of the repository are not part of this model: the HTTP client stub,
  the Spring Boot properties bean and the example application.
- Reflection is replaced by the `ClassTable` value. `ClassUtils.isAssignable` and
  `ClassUtils.primitiveToWrapper` are not part of this model. They are stood in for by
  `TypeModel.ClassAssignable` (boxing, unboxing, widening from the table, subclassing with
  array covariance) and by `TypeUtils.PrimitiveToWrapper`, which keeps the class itself when
  it has no wrapper.
- `Array.newInstance(c, 0).getClass()` becomes the table's `arrayOf` map. A class missing
  from it (such as `void`) gives `IllegalArgumentException`.
- `value.getClass()` in `isInstance` becomes a given class id.
- Object identity (`type1 != type2` in `normalizeUpperBounds`) and the JDK's `equals` on
  reflective types are modelled as structural equality of `Type` values.
- `HashMap` key order in the loops of `isAssignable` and `typesSatisfyVariables` is modelled
  as ascending variable order.
- The `HashSet` result of `normalizeUpperBounds` is a sequence in first-occurrence order
  without duplicates. The properties proved about it do not depend on the order, but the
  `equals` of two wildcards compares the normalised upper bounds in that order.
- Recursion bound: every member of the `isAssignable` / `getTypeArguments` family, and
  `getRawType`, `determineTypeArguments` and the wildcard branch of `equals`, takes `fuel`.
  When it runs out the model answers `OutOfFuel`, where Java would go on recursing or
  overflow its stack.
- `unrollVariableAssignments` on a cycle loops forever in Java. `Variables.Unroll` answers
  `NonTermination`, and the method version requires a chain without a cycle.
- `getTypeArguments(Type, Class)` with a `null` class, and the other public overloads called
  with `null` where the source dereferences it (for example the raw class in
  `getTypeArguments(ParameterizedType)`), are not modelled: the target class is always a
  class id.
- The unhandled-shape `IllegalStateException`s at lines 80, 146 and 313 of `TypeUtils.java` cannot happen
  on the closed `Type` datatype. The one at line 448 is the finding below. A `null` type in
  `getTypeArguments` (line 571) is `IllegalState`.
- Bounds.ImplicitBoundsShape: the result is proved non-empty only for zero or one declared
  bounds. With two bounds that are assignable to each other, `normalizeUpperBounds` keeps
  neither (`Bounds.RawAndParameterizedBoundsVanish`), so the documented "non-empty array"
  holds only for the bounds `javac` accepts. `javac` rejects a bound list that repeats a
  class, and subclassing between distinct classes is antisymmetric. The class table does not
  encode that restriction.
- Resolution.TypeArgumentsNullIff: stated only on a well-formed class table, for class and
  parameterized-type sources that are not arrays, and reference targets. Wildcard and
  type-variable sources, which `getTypeArguments` resolves through their first bound (lines
  549-569 of `TypeUtils.java`), are not covered. Primitive sources are covered, through their wrapper.
  An array source can return null while being assignable: `String[]` to `Object[]` climbs from
  an array class. An interface source towards `Object` fails, because the interface has no
  superclass, and the lemma says nothing about calls that fail.
- Resolver.DetermineTypeArgumentsNullIff: stated under the same conditions.
- Resolver.DetermineTypeArguments: the contract states the null case. The non-null case is
  stated by `Resolver.DetermineTypeArgumentsNullIff`. The content of the map is stated by
  `Resolver.DetermineTypeArgumentsPassesArgument` for each variable that is handed, position
  by position, up the chain of parent types to the supertype's class; a variable whose
  argument reaches the supertype through a generic array or a nested argument is not covered.
- Subtyping.AssignableTransitive: stated for reference classes only, the first two of them
  not arrays. Boxing breaks transitivity (`Subtyping.BoxingNotTransitive`:
  `Integer` goes to `long` and `long` to `Long`, but `Integer` does not go to `Long`).
- Every lemma that assumes a well-formed class table assumes that each type variable has at
  least one bound, as the JVM reports `Object` for a variable declared without one.
- RawTypes.IsInstance: states the cases the source writes out. Against other target shapes it
  is `isAssignable` of the value's class, whose properties are the `Assignability` lemmas.

## Findings

| source | as written | input that shows it | evidently intended | confidence | as-written member | corrected member |
|---|---|---|---|---|---|---|
| crnk-core/src/main/java/io/crnk/core/engine/internal/utils/TypeUtils.java:430-448 | when the source is a type variable none of whose implicit bounds is assignable to the target variable, the loop ends, the `instanceof` test at line 443 does not list `TypeVariable`, and control reaches `throw new IllegalStateException` | `isAssignable(T, U)` for two distinct unbounded type variables `T` and `U`: `Object` is not assignable to `U` | answer `false` | not executed | Findings.AssignableToVariableAsWritten, Findings.UnrelatedVariablesThrow | TypeUtils.AssignableToVariable, Assignability.VariableToVariable |
