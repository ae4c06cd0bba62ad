# PHPStan object types and the `&&` constant-condition rule, in Dafny

This project models two parts of the PHPStan static analyser.

The first is `ObjectType`: the type of an object of a named class or
interface. The type holds only a class name. Every question it answers goes
through the class registry (the "broker"). The model covers these queries:

- `isSuperTypeOf`, the three-valued subtype query (`Yes` / `No` / `Maybe`);
- `accepts`, its boolean counterpart;
- `isInstanceOf` and the probes built on it (`isIterable`, `isOffsetAccessible`);
- the iterable and offset accessors;
- `isCallable` and the callable signature;
- `canCallMethods` and the member probes;
- the conversions, including `toArray`, which walks the parent chain.

The second is `BooleanAndConstantConditionRule`. It reports each side of an
`&&` whose truth value is fixed. The right side is judged in the scope
narrowed by assuming the left side was truthy.

Layout:

- `wrappers.dfy`: `Option` and `Result`.
- `trinary.dfy`: `TrinaryLogic`.
- `types.dfy`: the `Type` variants the core distinguishes, and `ClassNameOf`.
  `ClassNameOf` is the `TypeWithClassName` capability.
- `registry.dfy`: the registry. It is an immutable map from a class name to a
  `ClassDescriptor`, with a well-formedness predicate `Valid`. Ancestry is
  `Ancestors`, and native `isSubclassOf` is defined over it. Every descriptor
  carries a `depth` that shrinks towards the root, so ancestry is acyclic and
  recursion over it terminates. Alias keys map to the descriptor of the class
  they denote, whose `name` is the canonical name.
- `object_type.dfy`: the `ObjectType` operations, each taking the registry
  explicitly.
- `object_type_properties.dfy`: what those operations promise.
- `to_array.dfy`: `toArray`. It is a method with the source's loop over the
  parent chain, proved equal to the specification function `ToArrayOf`.
- `boolean_and_rule.dfy`: `processNode`. It is a method proved equal to
  `ExpectedMessages`, whose properties are proved as lemmas.

Two behaviours of the code are easy to misstate; the model follows the code:

- **`accepts` and finality.** `checkSubclassAcceptability` does not accept
  the `Maybe` cases of interfaces against non-final classes. The code
  (src/Type/ObjectType.php:150-154) only checks interface implementation or
  subclassing. `AcceptabilityIsSuperTypeYes` proves that `accepts` on a class
  name holds exactly when `isSuperTypeOf` answers `Yes`.
- **Unknown classes.** An unknown class does not give `Maybe` against
  everything. The code gives `Yes` for textually equal names. It gives `No` for
  a type that names no class, and `Maybe` only for distinct names
  (`ExactNameIsYes`, `NonClassOperands`, `UnknownClassIsMaybe`).

## Model

| member | source | states |
|---|---|---|
| ObjectTypes.SuperTypeOfClass | src/Type/ObjectType.php:91-128 | the ordered class-name branches of `isSuperTypeOf`; their promises are stated by `ExactNameIsYes` through `SuperTypeTransitive` below |
| ObjectTypes.IsSuperTypeOf | src/Type/ObjectType.php:77-89 | compound operands delegate, an object without class gives `Maybe`, a type naming no class gives `No`, else `SuperTypeOfClass`; see `NonClassOperands`, `CompoundOperandDelegates` |
| ObjectTypeProperties.ExactNameIsYes | src/Type/ObjectType.php:91-96 | textually equal class names give `Yes` without consulting the registry, so even an unknown class is a supertype of itself |
| ObjectTypeProperties.NonClassOperands | src/Type/ObjectType.php:83-89 | against an object of unknown class the answer is `Maybe`; against a non-compound type naming no class it is `No` |
| ObjectTypeProperties.CompoundOperandDelegates | src/Type/ObjectType.php:60-81 | a compound operand answers `isSuperTypeOf` and `accepts` itself |
| ObjectTypeProperties.UnknownClassIsMaybe | src/Type/ObjectType.php:98-102 | for distinct names, an unknown class on either side gives `Maybe`, never `Yes` or `No` |
| ObjectTypeProperties.AliasIsYes | src/Type/ObjectType.php:104-109 | two names that resolve to the same class give `Yes` |
| ObjectTypeProperties.DescendantIsYes | src/Type/ObjectType.php:111-113 | a descendant of this class gives `Yes` |
| ObjectTypeProperties.AncestorIsMaybe | src/Type/ObjectType.php:115-117 | an ancestor of this class gives `Maybe`, never `Yes`; uses acyclicity of the hierarchy |
| ObjectTypeProperties.InterfaceOpenness | src/Type/ObjectType.php:119-127 | for unrelated known classes, the answer is `Maybe` exactly when one side is an interface and the other is not final, and `No` otherwise |
| ObjectTypeProperties.ExampleHierarchy | src/Type/ObjectType.php:104-127 | on a concrete hierarchy: non-final class vs unrelated interface is `Maybe`, final class is `No`, subclass is `Yes` one way and `Maybe` the other |
| ObjectTypeProperties.YesMeansSubclass | src/Type/ObjectType.php:91-128 | `Yes` exactly for equal names, the same class, or a descendant |
| ObjectTypeProperties.NoMeansUnrelated | src/Type/ObjectType.php:91-128 | `No` only for two known, distinct, unrelated classes, neither an interface facing a non-final class |
| ObjectTypeProperties.SuperTypeTransitive | src/Type/ObjectType.php:91-113 | a `Yes` from A over B and from B over C gives a `Yes` from A over C |
| ObjectTypes.Accepts | src/Type/ObjectType.php:60-75 | `static` by its base class, compound operands delegate, class names by `CheckSubclassAcceptability`; see `AcceptsBasics`, `AcceptsIsSuperTypeYes` |
| ObjectTypes.CheckSubclassAcceptability | src/Type/ObjectType.php:130-155 | equal names, unknown classes, aliases, interface-versus-interface and subclassing, in the source's order; see `AcceptabilityIsSuperTypeYes` |
| ObjectTypeProperties.AcceptsBasics | src/Type/ObjectType.php:60-75 | `static` is judged by its base class; a type naming no class is rejected; equal names are accepted; an unknown class on either side of distinct names is rejected |
| ObjectTypeProperties.AcceptabilityIsSuperTypeYes | src/Type/ObjectType.php:130-155 | `checkSubclassAcceptability` holds exactly when `isSuperTypeOf` on the class names is `Yes`; finality is never consulted |
| ObjectTypeProperties.AcceptsIsSuperTypeYes | src/Type/ObjectType.php:60-128 | for every non-compound operand, `accepts` holds exactly when `isSuperTypeOf` answers `Yes` |
| ClassRegistry.IsSubclassOf | src/Type/ObjectType.php:111-117 | native `isSubclassOf`: the resolved target is a strict ancestor (parent chain or implemented interface); its promises are stated by `SubclassIrreflexive`, `SubclassAsymmetric`, `AncestorsTransitive` and `AncestorsOfCanonical` |
| ClassRegistry.AncestorsShallower | src/Type/ObjectType.php:111-117 | every ancestor is the canonical name of a known class strictly closer to the root |
| ClassRegistry.SubclassIrreflexive | src/Type/ObjectType.php:111-117 | no class is a strict subclass of itself |
| ClassRegistry.SubclassAsymmetric | src/Type/ObjectType.php:111-117 | two classes are never subclasses of each other, so the `Yes` and `Maybe` branches of lines 111 and 115 never both apply |
| ClassRegistry.AncestorsTransitive | src/Type/ObjectType.php:111-113 | the ancestors of an ancestor are ancestors |
| ClassRegistry.AncestorsOfCanonical | src/Type/ObjectType.php:104-113 | an alias key and its canonical name have the same ancestors |
| ClassRegistry.InterfaceSubclassIsImplements | src/Type/ObjectType.php:150-154 | for an interface, native `isSubclassOf` holds exactly when the reflexive native `implementsInterface` holds for a target other than the interface itself |
| ObjectTypes.IsInstanceOf | src/Type/ObjectType.php:437-455 | the instance probe that `isIterable` and `isOffsetAccessible` use; see `InstanceOfCases`, `InstanceOfAgreesWithSuperType` |
| ObjectTypeProperties.InstanceOfCases | src/Type/ObjectType.php:437-455 | `isInstanceOf`: `Maybe` for an unknown class; `Yes` exactly for a subclass or the same canonical name; otherwise `Maybe` for an interface and `No` for a class |
| ObjectTypeProperties.InstanceOfAgreesWithSuperType | src/Type/ObjectType.php:437-455 | for a canonical target, `isInstanceOf` is `Yes` exactly when the target's object type is a `Yes` supertype |
| ObjectTypes.IsIterable | src/Type/ObjectType.php:283-286 | `isInstanceOf(Traversable)`; see `NotIterableHasNoIterableTypes`, `UnknownClassAccessors` |
| ObjectTypes.GetIterableKeyType | src/Type/ObjectType.php:288-313 | the iterable lookup through `key`; see `NotIterableHasNoIterableTypes`, `UnknownClassAccessors` |
| ObjectTypes.GetIterableValueType | src/Type/ObjectType.php:315-340 | the iterable lookup through `current`; see `NotIterableHasNoIterableTypes`, `UnknownClassAccessors` |
| ObjectTypes.IterableLookupVia | src/Type/ObjectType.php:288-340 | the shared branches of `getIterableKeyType` (`key`) and `getIterableValueType` (`current`); see `NotIterableHasNoIterableTypes`, `UnknownClassAccessors` |
| ObjectTypeProperties.NotIterableHasNoIterableTypes | src/Type/ObjectType.php:283-340 | a class that is certainly not iterable has error key and value types, given that `Iterator` and `IteratorAggregate` extend `Traversable` |
| ObjectTypeProperties.UnknownClassAccessors | src/Type/ObjectType.php:283-368 | for an unknown class, the key, value and offset types are errors and both probes are `Maybe` |
| ObjectTypes.IsOffsetAccessible | src/Type/ObjectType.php:342-345 | `isInstanceOf(ArrayAccess)`; see `OffsetValueTypeCases`, `UnknownClassAccessors` |
| ObjectTypes.GetOffsetValueType | src/Type/ObjectType.php:347-368 | an error unless the known class is an `ArrayAccess`, then `offsetGet`'s return type or mixed; see `OffsetValueTypeCases` |
| ObjectTypeProperties.OffsetValueTypeCases | src/Type/ObjectType.php:342-368 | not offset-accessible gives an error offset type; an `ArrayAccess` class gives `offsetGet`'s return type, or mixed without it |
| ObjectTypes.FindCallableParametersAcceptor | src/Type/ObjectType.php:403-421 | the trivial signature for an unknown or non-final class, the `__invoke` signature when declared, none for a final class; see `CallableCases` |
| ObjectTypes.IsCallable | src/Type/ObjectType.php:376-388 | the callable probe built on the signature search; see `CallableCases` |
| ObjectTypes.GetCallableParametersAcceptor | src/Type/ObjectType.php:390-401 | `Closure` gets the trivial signature, otherwise the found one or the should-not-happen failure; see `CallableAcceptorFailsIffNotCallable` |
| ObjectTypeProperties.CallableCases | src/Type/ObjectType.php:376-421 | `isCallable`: `Maybe` for an unknown class, `Yes` with `__invoke`, otherwise `Maybe` if not final and `No` if final |
| ObjectTypeProperties.CallableAcceptorFailsIffNotCallable | src/Type/ObjectType.php:390-421 | the callable signature fails exactly when `isCallable` is `No` and the class is not `Closure`; a `Yes` yields the `__invoke` signature |
| ObjectTypes.CanCallMethods | src/Type/ObjectType.php:237-244 | `No` for `stdClass` in any letter case, `Yes` otherwise; see `CanCallMethodsIgnoresCase`, `StdClassCannotCallMethods` |
| ObjectTypeProperties.CanCallMethodsIgnoresCase | src/Type/ObjectType.php:237-244 | `canCallMethods` depends on the class name only up to ASCII letter case |
| ObjectTypeProperties.StdClassCannotCallMethods | src/Type/ObjectType.php:237-244 | `stdClass` and `STDCLASS` cannot call methods; `Closure` can |
| ObjectTypes.ToLower | src/Type/ObjectType.php:239 | lower-casing keeps the length, lower-cases each character, and leaves no upper-case ASCII letter |
| ObjectTypes.HasProperty | src/Type/ObjectType.php:36-44 | `false` for an unknown class; otherwise native reflection's property list, or `true` for a universal object crate; its promises are stated by `MemberProbesFollowAliases`, `ListedPropertiesAreReported` and `UniversalCrateIsUnconstrained` |
| ObjectTypes.HasMethod | src/Type/ObjectType.php:246-254 | `false` for an unknown class, otherwise the class's method set; see `MemberProbesFollowAliases` |
| ObjectTypes.HasConstant | src/Type/ObjectType.php:267-275 | `false` for an unknown class, otherwise the class's constant set; see `MemberProbesFollowAliases` |
| ObjectTypeProperties.MemberProbesFollowAliases | src/Type/ObjectType.php:36-44 | `hasProperty`, `hasMethod`, `hasConstant` and `toString` answer the same for an alias as for the canonical name, and `false` (an error) for an unknown class |
| ObjectTypeProperties.ListedPropertiesAreReported | src/Type/ObjectType.php:36-44 | every listed property of a class is reported by `hasProperty` on that class and on its declaring class |
| ObjectTypeProperties.UniversalCrateIsUnconstrained | src/Type/ObjectType.php:192-205 | a universal object crate has every property and converts to `array<mixed, mixed>` |
| ObjectTypes.ToStringType | src/Type/ObjectType.php:177-190 | an error for an unknown class, a string when the class has `__toString`, an error otherwise; see `StringConversionFollowsToStringMethod` |
| ObjectTypeProperties.StringConversionFollowsToStringMethod | src/Type/ObjectType.php:177-190 | the string conversion is a string exactly when `hasMethod('__toString')` holds, and an error otherwise |
| ObjectTypes.SetOffsetValueType | src/Type/ObjectType.php:370-374 | the receiver itself; see `SetOffsetIsEquivalentToReceiver` |
| ObjectTypeProperties.SetOffsetIsEquivalentToReceiver | src/Type/ObjectType.php:370-374 | writing an offset yields a type that is a `Yes` supertype of the receiver and a `Yes` subtype of it, and that the receiver accepts |
| ObjectTypes.GetReferencedClasses | src/Type/ObjectType.php:55-58 | the receiver's class name alone; see `ReferencedClassIsClassName` |
| ObjectTypeProperties.ReferencedClassIsClassName | src/Type/ObjectType.php:55-58 | exactly one class is referenced, the class name the object type reports |
| ObjectToArray.ToArrayOf | src/Type/ObjectType.php:192-230 | the array shape as a function of the registry; see `ToArrayShape`, `ChainEntriesMembership` |
| ObjectToArray.ToArray | src/Type/ObjectType.php:192-230 | the loop over the parent chain yields exactly `ToArrayOf` |
| ObjectToArray.AppendLevel | src/Type/ObjectType.php:211-224 | one level appends the entries of its non-static properties, keeping keys and values in step |
| ObjectToArray.ToArrayShape | src/Type/ObjectType.php:192-230 | unknown class or universal object crate gives `array<mixed, mixed>`; otherwise a constant array with as many keys as values, whose pairs are exactly (declaring class name + property name, declared type) over the non-static properties of the class and its ancestors, and whose length is the number of non-static properties summed over the levels, so each such property of each level gives exactly one entry |
| ObjectToArray.LevelEntriesMembership | src/Type/ObjectType.php:211-224 | a level's entries are exactly those of its non-static properties |
| ObjectToArray.ChainEntriesMembership | src/Type/ObjectType.php:210-227 | the chain's entries are exactly those of the levels of the class and its ancestor classes |
| ObjectToArray.LevelEntriesCount | src/Type/ObjectType.php:211-224 | a level contributes exactly as many entries as it has non-static properties |
| ObjectToArray.ChainEntriesCount | src/Type/ObjectType.php:210-227 | the chain contributes exactly as many entries as the non-static properties summed over the class and its ancestor classes |
| ObjectToArray.ParentChainEndsAtRoot | src/Type/ObjectType.php:226-227 | the walk visits each parent in turn and stops at the class without a parent |
| ObjectToArray.TwoPropertyExample | src/Type/ObjectType.php:207-229 | class `Cls` with `a: int`, `b: string` converts to `{"Clsa": int, "Clsb": string}` |
| BooleanAndConstantCondition.ExpectedMessages | src/Rules/Comparison/BooleanAndConstantConditionRule.php:20-46 | the messages of one node, as a function of the two boolean types; see the lemmas below |
| BooleanAndConstantCondition.ProcessNode | src/Rules/Comparison/BooleanAndConstantConditionRule.php:20-46 | the two conditional appends yield exactly `ExpectedMessages` |
| BooleanAndConstantCondition.MessagesCountAndOrder | src/Rules/Comparison/BooleanAndConstantConditionRule.php:25-45 | at most two messages, each a left or right message, every left one before every right one |
| BooleanAndConstantCondition.LeftMessageIff | src/Rules/Comparison/BooleanAndConstantConditionRule.php:26-32 | a left message exactly when the left type in the original scope is a constant boolean; it comes first and names that constant |
| BooleanAndConstantCondition.RightMessageIff | src/Rules/Comparison/BooleanAndConstantConditionRule.php:34-43 | a right message exactly when the right type in the narrowed scope is a constant boolean; it comes last and names that constant |
| BooleanAndConstantCondition.RightSideUsesNarrowedScope | src/Rules/Comparison/BooleanAndConstantConditionRule.php:34-37 | the messages depend on the right operand only through its type in `filterByTruthyValue(scope, left)` |
| BooleanAndConstantCondition.NoConstantsNoMessages | src/Rules/Comparison/BooleanAndConstantConditionRule.php:25-45 | the result is empty exactly when neither side is a constant boolean |
| BooleanAndConstantCondition.MessageTexts | src/Rules/Comparison/BooleanAndConstantConditionRule.php:28-42 | the four message texts, written out |
| BooleanAndConstantCondition.LeftAndRightMessagesDiffer | src/Rules/Comparison/BooleanAndConstantConditionRule.php:28-42 | no text is both a left and a right message |
| BooleanAndConstantCondition.TrueAndFalseScenario | src/Rules/Comparison/BooleanAndConstantConditionRule.php:25-45 | `true && false` reports the left-true message, then the right-false message |

## Left out

- The registry is a process-wide singleton that reflects classes lazily. Here it is an explicit, immutable `Broker` parameter. Native reflection facts (finality, interfaces, properties, declaring class, native methods) are descriptor fields.
- Class names in the host language are case-insensitive. The model compares registry keys exactly; other spellings of a name are separate keys mapping to the same descriptor. Method and property names are compared exactly.
- Native `isSubclassOf` raises an error for a target class that does not exist. The model answers `false`.
- Whether a class is a universal object crate is decided by an extension that is not part of this model. It is a descriptor flag here.
- `hasProperty` on a class reflection consults extensions. The model keeps native reflection's property list and the universal-object-crates extension; the answers of the other property extensions (for example annotation-declared properties) are not part of this model. `hasMethod` likewise consults extensions; the descriptor's method set stands for its whole answer. The only other query that reads the set, `toString`, asks the same extension-aware `hasMethod` (src/Type/ObjectType.php:185).
- `toNumber`, `toInteger` and `toFloat` always give an error type. They are `ToNumber`, `ToInteger` and `ToFloat`, definitions with nothing further to prove.
- Union and intersection types (`CompoundType`, `CompoundTypeHelper`) are not part of this model. Their answers are the two functions of `CompoundHooks`.
- The `IteratorAggregate` branches of `getIterableKeyType` and `getIterableValueType` ask the return type of `getIterator()` again, under a recursion guard that is not part of this model. That answer is returned unevaluated as `FromGetIterator(returnType)`. The recursion guard around `offsetGet` is not modelled; its body returns the declared return type directly.
- `getProperty`, `getMethod` and `getConstant` depend on the calling scope's visibility rules, which are not part of this model. `describe`, `__set_state`, the constructor and `getClassName` only present or store the name.
- `canAccessProperties`, `canAccessConstants` and `isCloneable` always answer `Yes`, and the boolean conversion comes from a trait that is not part of this model.
- `getCallableParametersAcceptor` takes a scope it never reads; the model drops it. The acceptor taken from `__invoke` is represented by its return type only.
- `ToArray` does not model how a constant array type treats duplicate keys. Native reflection lists inherited non-private properties at every level, so duplicates can occur.
- `strtolower` is modelled on ASCII letters only.
- The combinators of `TrinaryLogic` (`and`, `or`, `negate`) are not part of this model; only its three values are used.
- `ConstantConditionRuleHelper::getBooleanType` and `Scope::filterByTruthyValue` are not part of this model. They are the `booleanType` and `filterByTruthyValue` parameters of `ProcessNode`. `getNodeType` becomes the `BooleanAnd` node datatype.
- The method-reflection adapters (annotation-derived, parser-node-derived), the reflection factory interface and the PHPUnit test harnesses are not modelled. They only produce types and reflection facts that the core consumes.
