/** The object type `ObjectType(className)`: a type that holds only a class
    name and answers every query by resolving that name in the registry.
    Each operation takes the registry explicitly and the receiver's class
    name as `className`. */
module ObjectTypes {
  import opened Wrappers
  import opened Trinary
  import opened Types
  import opened ClassRegistry

  /** Compound (union, intersection) types answer subtype and acceptance
      questions about their members themselves; their logic is outside this
      model, so it is given as two functions of the compound type and the
      object type being compared with it. */
  datatype CompoundHooks = CompoundHooks(
    isSubTypeOf: (nat, Type) -> TrinaryLogic,
    accepts: (nat, Type) -> bool)

  /** The non-final-class / interface openness condition: an interface on
      one side could still be implemented by an unseen subclass of a class
      that is not final. */
  predicate Open(b: Broker, iface: string, other: string)
    requires iface in b.classes && other in b.classes
  {
    b.classes[iface].isInterface && !b.classes[other].isFinal
  }

  // ---------------------------------------------------------------------
  // isSuperTypeOf

  /** The class-name part of `isSuperTypeOf`: is `thatName` a subtype of
      `thisName`? */
  function SuperTypeOfClass(b: Broker, thisName: string, thatName: string): TrinaryLogic
    requires Valid(b)
  {
    if thatName == thisName then Yes
    else if !HasClass(b, thisName) || !HasClass(b, thatName) then Maybe
    else if Canonical(b, thisName) == Canonical(b, thatName) then Yes
    else if IsSubclassOf(b, thatName, thisName) then Yes
    else if IsSubclassOf(b, thisName, thatName) then Maybe
    else if Open(b, thisName, thatName) then Maybe
    else if Open(b, thatName, thisName) then Maybe
    else No
  }

  function IsSuperTypeOf(b: Broker, hooks: CompoundHooks, className: string, t: Type): TrinaryLogic
    requires Valid(b)
  {
    match t
    case CompoundT(c) => hooks.isSubTypeOf(c, ObjectT(className))
    case ObjectWithoutClassT => Maybe
    case _ =>
      match ClassNameOf(t)
      case None => No
      case Some(thatName) => SuperTypeOfClass(b, className, thatName)
  }

  // ---------------------------------------------------------------------
  // accepts

  function CheckSubclassAcceptability(b: Broker, className: string, thatClass: string): bool
    requires Valid(b)
  {
    if className == thatClass then true
    else if !HasClass(b, className) || !HasClass(b, thatClass) then false
    else if Canonical(b, className) == Canonical(b, thatClass) then true  // class alias
    else if b.classes[className].isInterface && b.classes[thatClass].isInterface then
      ImplementsInterface(b, thatClass, className)
    else IsSubclassOf(b, thatClass, className)
  }

  function Accepts(b: Broker, hooks: CompoundHooks, className: string, t: Type): bool
    requires Valid(b)
  {
    match t
    case StaticT(base) => CheckSubclassAcceptability(b, className, base)
    case CompoundT(c) => hooks.accepts(c, ObjectT(className))
    case _ =>
      match ClassNameOf(t)
      case None => false
      case Some(thatName) => CheckSubclassAcceptability(b, className, thatName)
  }

  // ---------------------------------------------------------------------
  // isInstanceOf and the probes built on it

  function IsInstanceOf(b: Broker, className: string, target: string): TrinaryLogic
    requires Valid(b)
  {
    if !HasClass(b, className) then Maybe
    else if IsSubclassOf(b, className, target) || Canonical(b, className) == target then Yes
    else if b.classes[className].isInterface then Maybe
    else No
  }

  const Traversable := "Traversable"
  const Iterator := "Iterator"
  const IteratorAggregate := "IteratorAggregate"
  const ArrayAccess := "ArrayAccess"
  const Closure := "Closure"

  function IsIterable(b: Broker, className: string): TrinaryLogic
    requires Valid(b)
  {
    IsInstanceOf(b, className, Traversable)
  }

  function IsOffsetAccessible(b: Broker, className: string): TrinaryLogic
    requires Valid(b)
  {
    IsInstanceOf(b, className, ArrayAccess)
  }

  /** The answer of an iterable key or value query.  `FromGetIterator(t)`
      stands for "the key (value) type of `t`, the declared return type of
      `getIterator()`", which the source computes under its recursion guard
      by asking `t` itself; that re-entry is not part of this model. */
  datatype IterableLookup = Resolved(t: Type) | FromGetIterator(returnType: Type)

  function IterableLookupVia(b: Broker, className: string, iteratorMethod: string): IterableLookup
    requires Valid(b)
  {
    if !HasClass(b, className) then Resolved(ErrorT)
    else
      var d := b.classes[className];
      if IsSubclassOf(b, className, Iterator) && iteratorMethod in d.nativeMethods then
        Resolved(d.nativeMethods[iteratorMethod])
      else if IsSubclassOf(b, className, IteratorAggregate) && "getIterator" in d.nativeMethods then
        FromGetIterator(d.nativeMethods["getIterator"])
      else if IsSubclassOf(b, className, Traversable) then Resolved(MixedT)
      else Resolved(ErrorT)
  }

  function GetIterableKeyType(b: Broker, className: string): IterableLookup
    requires Valid(b)
  {
    IterableLookupVia(b, className, "key")
  }

  function GetIterableValueType(b: Broker, className: string): IterableLookup
    requires Valid(b)
  {
    IterableLookupVia(b, className, "current")
  }

  /** The offset type is not consulted by the source. */
  function GetOffsetValueType(b: Broker, className: string, offsetType: Type): Type
    requires Valid(b)
  {
    if !HasClass(b, className) then ErrorT
    else
      var d := b.classes[className];
      if IsSubclassOf(b, className, ArrayAccess) then
        if "offsetGet" in d.nativeMethods then d.nativeMethods["offsetGet"] else MixedT
      else ErrorT
  }

  function SetOffsetValueType(className: string, offsetType: Option<Type>, valueType: Type): Type {
    ObjectT(className)
  }

  function GetReferencedClasses(className: string): seq<string> {
    [className]
  }

  // ---------------------------------------------------------------------
  // callables

  /** A signature for calling a value: the trivial "anything goes" one, or
      the native `__invoke` method of a class. */
  datatype ParametersAcceptor = TrivialAcceptor | InvokeAcceptor(returnType: Type)

  function FindCallableParametersAcceptor(b: Broker, className: string): Option<ParametersAcceptor>
    requires Valid(b)
  {
    if !HasClass(b, className) then Some(TrivialAcceptor)
    else
      var d := b.classes[className];
      if "__invoke" in d.nativeMethods then Some(InvokeAcceptor(d.nativeMethods["__invoke"]))
      else if !d.isFinal then Some(TrivialAcceptor)
      else None
  }

  function IsCallable(b: Broker, className: string): TrinaryLogic
    requires Valid(b)
  {
    match FindCallableParametersAcceptor(b, className)
    case None => No
    case Some(TrivialAcceptor) => Maybe
    case Some(_) => Yes
  }

  /** The failure the source raises when asked for the signature of a value
      it has already found not to be callable. */
  datatype CallableError = ShouldNotHappen

  function GetCallableParametersAcceptor(b: Broker, className: string): Result<ParametersAcceptor, CallableError>
    requires Valid(b)
  {
    if className == Closure then Success(TrivialAcceptor)
    else
      match FindCallableParametersAcceptor(b, className)
      case None => Failure(ShouldNotHappen)
      case Some(acceptor) => Success(acceptor)
  }

  // ---------------------------------------------------------------------
  // methods, properties, constants

  function LowerChar(c: char): char {
    if 'A' <= c <= 'Z' then (c as int + 32) as char else c
  }

  /** ASCII lower-casing, as used to compare class names. */
  function ToLower(s: string): (r: string)
    ensures |r| == |s|
    ensures forall i :: 0 <= i < |s| ==> r[i] == LowerChar(s[i])
    ensures forall i :: 0 <= i < |s| ==> !('A' <= r[i] <= 'Z')
  {
    seq(|s|, i requires 0 <= i < |s| => LowerChar(s[i]))
  }

  function CanCallMethods(className: string): TrinaryLogic {
    if ToLower(className) == "stdclass" then No else Yes
  }

  /** A known class has a property when native reflection lists it, or when
      the class is a universal object crate, whose extension answers `true`
      for every name. */
  function HasProperty(b: Broker, className: string, propertyName: string): bool {
    HasClass(b, className) &&
    (b.classes[className].isUniversalObjectCrate ||
     exists p :: p in b.classes[className].properties && p.name == propertyName)
  }

  function HasMethod(b: Broker, className: string, methodName: string): bool {
    HasClass(b, className) && methodName in b.classes[className].methods
  }

  function HasConstant(b: Broker, className: string, constantName: string): bool {
    HasClass(b, className) && constantName in b.classes[className].constants
  }

  // ---------------------------------------------------------------------
  // conversions

  function ToNumber(className: string): Type { ErrorT }

  function ToInteger(className: string): Type { ErrorT }

  function ToFloat(className: string): Type { ErrorT }

  function ToStringType(b: Broker, className: string): Type {
    if !HasClass(b, className) then ErrorT
    else if "__toString" in b.classes[className].methods then StringT
    else ErrorT
  }
}
