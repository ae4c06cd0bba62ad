/** What the object-type queries promise, proved over every well-formed
    registry. */
module ObjectTypeProperties {
  import opened Wrappers
  import opened Trinary
  import opened Types
  import opened ClassRegistry
  import opened ObjectTypes
  import ObjectToArray

  // ---------------------------------------------------------------------
  // isSuperTypeOf: the ordered branches

  /** Textually equal class names give `Yes` whatever the registry knows,
      so an object type is a supertype of itself even for an unknown class. */
  lemma ExactNameIsYes(b: Broker, hooks: CompoundHooks, className: string, t: Type)
    requires Valid(b)
    requires ClassNameOf(t) == Some(className)
    ensures IsSuperTypeOf(b, hooks, className, t) == Yes
  {
  }

  /** An object of unknown class may or may not be an instance; a type that
      names no class and is not compound never is. */
  lemma NonClassOperands(b: Broker, hooks: CompoundHooks, className: string, t: Type)
    requires Valid(b)
    requires !t.CompoundT?
    ensures t.ObjectWithoutClassT? ==> IsSuperTypeOf(b, hooks, className, t) == Maybe
    ensures ClassNameOf(t).None? && !t.ObjectWithoutClassT? ==> IsSuperTypeOf(b, hooks, className, t) == No
  {
  }

  /** A compound operand answers the question itself. */
  lemma CompoundOperandDelegates(b: Broker, hooks: CompoundHooks, className: string, c: nat)
    requires Valid(b)
    ensures IsSuperTypeOf(b, hooks, className, CompoundT(c)) == hooks.isSubTypeOf(c, ObjectT(className))
    ensures Accepts(b, hooks, className, CompoundT(c)) == hooks.accepts(c, ObjectT(className))
  {
  }

  /** Distinct names of which the registry does not know both give `Maybe`:
      an unknown class can be neither proven nor refuted. */
  lemma UnknownClassIsMaybe(b: Broker, thisName: string, thatName: string)
    requires Valid(b)
    requires thisName != thatName
    requires !HasClass(b, thisName) || !HasClass(b, thatName)
    ensures SuperTypeOfClass(b, thisName, thatName) == Maybe
  {
  }

  /** Two names of the same class (an alias) give `Yes`. */
  lemma AliasIsYes(b: Broker, thisName: string, thatName: string)
    requires Valid(b) && HasClass(b, thisName) && HasClass(b, thatName)
    requires Canonical(b, thisName) == Canonical(b, thatName)
    ensures SuperTypeOfClass(b, thisName, thatName) == Yes
  {
  }

  /** A descendant of this class is a subtype. */
  lemma DescendantIsYes(b: Broker, thisName: string, thatName: string)
    requires Valid(b) && HasClass(b, thisName) && HasClass(b, thatName)
    requires IsSubclassOf(b, thatName, thisName)
    ensures SuperTypeOfClass(b, thisName, thatName) == Yes
  {
  }

  /** An ancestor of this class gives `Maybe`, never `Yes`: an object of the
      ancestor class is not necessarily an object of this class. */
  lemma AncestorIsMaybe(b: Broker, thisName: string, thatName: string)
    requires Valid(b) && HasClass(b, thisName) && HasClass(b, thatName)
    requires IsSubclassOf(b, thisName, thatName)
    ensures SuperTypeOfClass(b, thisName, thatName) == Maybe
  {
    SubclassAsymmetric(b, thisName, thatName);
    assert WellFormedAt(b, thisName);
    AncestorsShallower(b, thisName, Canonical(b, thatName));
  }

  /** Among known classes that are not the same class and neither of which
      descends from the other, the answer is `Maybe` exactly when one side
      is an interface and the other is not final, and `No` otherwise. */
  lemma InterfaceOpenness(b: Broker, thisName: string, thatName: string)
    requires Valid(b) && HasClass(b, thisName) && HasClass(b, thatName)
    requires Canonical(b, thisName) != Canonical(b, thatName)
    requires !IsSubclassOf(b, thatName, thisName) && !IsSubclassOf(b, thisName, thatName)
    ensures SuperTypeOfClass(b, thisName, thatName) == Maybe <==>
              Open(b, thisName, thatName) || Open(b, thatName, thisName)
    ensures SuperTypeOfClass(b, thisName, thatName) != Yes
  {
  }

  /** The answer is `Yes` exactly for the same name, the same class or a
      descendant: a definite answer is never given on incomplete knowledge. */
  lemma YesMeansSubclass(b: Broker, thisName: string, thatName: string)
    requires Valid(b)
    ensures SuperTypeOfClass(b, thisName, thatName) == Yes <==>
              thisName == thatName ||
              (HasClass(b, thisName) && HasClass(b, thatName) &&
               (Canonical(b, thisName) == Canonical(b, thatName) || IsSubclassOf(b, thatName, thisName)))
  {
  }

  /** The answer is `No` only for two known, unrelated classes neither of
      which leaves room for an unseen implementor. */
  lemma NoMeansUnrelated(b: Broker, thisName: string, thatName: string)
    requires Valid(b)
    requires SuperTypeOfClass(b, thisName, thatName) == No
    ensures HasClass(b, thisName) && HasClass(b, thatName)
    ensures Canonical(b, thisName) != Canonical(b, thatName)
    ensures !IsSubclassOf(b, thatName, thisName) && !IsSubclassOf(b, thisName, thatName)
    ensures !Open(b, thisName, thatName) && !Open(b, thatName, thisName)
  {
  }

  /** `Yes` composes: a subtype of a subtype is a subtype. */
  lemma SuperTypeTransitive(b: Broker, a: string, m: string, c: string)
    requires Valid(b)
    requires SuperTypeOfClass(b, a, m) == Yes && SuperTypeOfClass(b, m, c) == Yes
    ensures SuperTypeOfClass(b, a, c) == Yes
  {
    if a == m || m == c {
      return;
    }
    // both steps went through the registry, so all three are known
    assert HasClass(b, a) && HasClass(b, m) && HasClass(b, c);
    assert WellFormedAt(b, a) && WellFormedAt(b, m) && WellFormedAt(b, c);
    var ca, cm := Canonical(b, a), Canonical(b, m);
    AncestorsOfCanonical(b, m);
    if ca == cm {
      // `a` and `m` name the same class; the second step carries over
      if Canonical(b, m) != Canonical(b, c) {
        assert IsSubclassOf(b, c, m);
      }
    } else {
      assert ca in Ancestors(b, m);
      if cm == Canonical(b, c) {
        assert b.classes[Canonical(b, m)] == b.classes[m];
        assert b.classes[Canonical(b, c)] == b.classes[c];
        AncestorsOfCanonical(b, c);
        assert ca in Ancestors(b, c);
      } else {
        assert cm in Ancestors(b, c);
        AncestorsTransitive(b, c, m);
      }
    }
  }

  /** A registry with interface `I`, a non-final class `D`, a final class
      `F`, and `E extends D`: neither `D` nor `F` implements `I`. */
  function ExampleBroker(): Broker {
    Broker(map[
      "I" := ClassDescriptor("I", None, {}, true, false, [], {}, map[], {}, false, 0),
      "D" := ClassDescriptor("D", None, {}, false, false, [], {}, map[], {}, false, 0),
      "F" := ClassDescriptor("F", None, {}, false, true, [], {}, map[], {}, false, 0),
      "E" := ClassDescriptor("E", Some("D"), {}, false, false, [], {}, map[], {}, false, 1)])
  }

  /** Against an unrelated interface a non-final class gives `Maybe` and a
      final one `No`; a subclass gives `Yes` one way and `Maybe` the other. */
  lemma ExampleHierarchy()
    ensures Valid(ExampleBroker())
    ensures SuperTypeOfClass(ExampleBroker(), "I", "D") == Maybe
    ensures SuperTypeOfClass(ExampleBroker(), "I", "F") == No
    ensures SuperTypeOfClass(ExampleBroker(), "F", "I") == No
    ensures SuperTypeOfClass(ExampleBroker(), "D", "E") == Yes
    ensures SuperTypeOfClass(ExampleBroker(), "E", "D") == Maybe
  {
    var b := ExampleBroker();
    assert WellFormedAt(b, "I") && WellFormedAt(b, "D") && WellFormedAt(b, "F") && WellFormedAt(b, "E");
    assert Ancestors(b, "D") == {} && Ancestors(b, "F") == {} && Ancestors(b, "I") == {};
    assert Ancestors(b, "E") == {"D"};
  }

  // ---------------------------------------------------------------------
  // accepts

  /** `static` is compared through its base class, a type that names no
      class is rejected, equal names are accepted, and an unknown class on
      either side of two distinct names is rejected. */
  lemma AcceptsBasics(b: Broker, hooks: CompoundHooks, className: string, t: Type)
    requires Valid(b)
    ensures t.StaticT? ==> Accepts(b, hooks, className, t) == CheckSubclassAcceptability(b, className, t.baseClass)
    ensures !t.CompoundT? && ClassNameOf(t).None? ==> !Accepts(b, hooks, className, t)
    ensures ClassNameOf(t) == Some(className) ==> Accepts(b, hooks, className, t)
    ensures ClassNameOf(t).Some? && ClassNameOf(t).value != className &&
            (!HasClass(b, className) || !HasClass(b, ClassNameOf(t).value)) ==>
              !Accepts(b, hooks, className, t)
  {
  }

  /** Acceptance of a class name is exactly a `Yes` from the subtype query:
      finality never makes `accepts` lenient, and the interface-versus-
      interface branch agrees with ancestry. */
  lemma AcceptabilityIsSuperTypeYes(b: Broker, className: string, thatClass: string)
    requires Valid(b)
    ensures CheckSubclassAcceptability(b, className, thatClass) <==>
              SuperTypeOfClass(b, className, thatClass) == Yes
  {
    if className != thatClass && HasClass(b, className) && HasClass(b, thatClass)
       && Canonical(b, className) != Canonical(b, thatClass)
       && b.classes[className].isInterface && b.classes[thatClass].isInterface {
      InterfaceSubclassIsImplements(b, thatClass, className);
    }
  }

  /** For every operand that is not compound, `accepts` holds exactly when
      `isSuperTypeOf` answers `Yes`. */
  lemma AcceptsIsSuperTypeYes(b: Broker, hooks: CompoundHooks, className: string, t: Type)
    requires Valid(b)
    requires !t.CompoundT?
    ensures Accepts(b, hooks, className, t) <==> IsSuperTypeOf(b, hooks, className, t) == Yes
  {
    if ClassNameOf(t).Some? {
      AcceptabilityIsSuperTypeYes(b, className, ClassNameOf(t).value);
    }
  }

  // ---------------------------------------------------------------------
  // isInstanceOf, isIterable, isOffsetAccessible

  lemma InstanceOfCases(b: Broker, className: string, target: string)
    requires Valid(b)
    ensures !HasClass(b, className) ==> IsInstanceOf(b, className, target) == Maybe
    ensures HasClass(b, className) ==>
              (IsInstanceOf(b, className, target) == Yes <==>
                 IsSubclassOf(b, className, target) || Canonical(b, className) == target)
    ensures HasClass(b, className) && !IsSubclassOf(b, className, target) && Canonical(b, className) != target ==>
              IsInstanceOf(b, className, target) == (if b.classes[className].isInterface then Maybe else No)
  {
  }

  /** For a canonical target name, a known class is an instance exactly when
      the object type of the target is a definite supertype of it. */
  lemma InstanceOfAgreesWithSuperType(b: Broker, className: string, target: string)
    requires Valid(b) && HasClass(b, className)
    requires HasClass(b, target) && Canonical(b, target) == target
    ensures IsInstanceOf(b, className, target) == Yes <==> SuperTypeOfClass(b, target, className) == Yes
  {
    assert WellFormedAt(b, className);
  }

  /** The standard iteration interfaces as the host language declares them. */
  predicate StandardIterationInterfaces(b: Broker) {
    && IsInterfaceName(b, Traversable)
    && IsInterfaceName(b, Iterator) && Traversable in b.classes[Iterator].interfaces
    && IsInterfaceName(b, IteratorAggregate) && Traversable in b.classes[IteratorAggregate].interfaces
  }

  /** A class that is certainly not iterable has no iterable key or value
      type: the `Iterator` and `IteratorAggregate` branches cannot fire,
      because both interfaces extend `Traversable`. */
  lemma NotIterableHasNoIterableTypes(b: Broker, className: string)
    requires Valid(b) && StandardIterationInterfaces(b)
    requires IsIterable(b, className) == No
    ensures GetIterableKeyType(b, className) == Resolved(ErrorT)
    ensures GetIterableValueType(b, className) == Resolved(ErrorT)
  {
    assert HasClass(b, className);
    assert Traversable !in Ancestors(b, className);
    if IsSubclassOf(b, className, Iterator) {
      assert Traversable in Ancestors(b, Iterator);
      AncestorsTransitive(b, className, Iterator);
    }
    if IsSubclassOf(b, className, IteratorAggregate) {
      assert Traversable in Ancestors(b, IteratorAggregate);
      AncestorsTransitive(b, className, IteratorAggregate);
    }
  }

  /** Unknown classes have error key, value and offset types. */
  lemma UnknownClassAccessors(b: Broker, className: string, offsetType: Type)
    requires Valid(b) && !HasClass(b, className)
    ensures GetIterableKeyType(b, className) == Resolved(ErrorT)
    ensures GetIterableValueType(b, className) == Resolved(ErrorT)
    ensures GetOffsetValueType(b, className, offsetType) == ErrorT
    ensures IsIterable(b, className) == Maybe && IsOffsetAccessible(b, className) == Maybe
  {
  }

  /** A class that is certainly not offset-accessible has an error offset
      value type; one that extends `ArrayAccess` gets the declared return
      type of `offsetGet`, or mixed without one. */
  lemma OffsetValueTypeCases(b: Broker, className: string, offsetType: Type)
    requires Valid(b)
    ensures IsOffsetAccessible(b, className) == No ==> GetOffsetValueType(b, className, offsetType) == ErrorT
    ensures HasClass(b, className) && IsSubclassOf(b, className, ArrayAccess) ==>
              IsOffsetAccessible(b, className) == Yes &&
              GetOffsetValueType(b, className, offsetType) ==
                (if "offsetGet" in b.classes[className].nativeMethods
                 then b.classes[className].nativeMethods["offsetGet"] else MixedT)
  {
  }

  // ---------------------------------------------------------------------
  // isCallable and getCallableParametersAcceptor

  lemma CallableCases(b: Broker, className: string)
    requires Valid(b)
    ensures !HasClass(b, className) ==> IsCallable(b, className) == Maybe
    ensures HasClass(b, className) && "__invoke" in b.classes[className].nativeMethods ==>
              IsCallable(b, className) == Yes
    ensures HasClass(b, className) && "__invoke" !in b.classes[className].nativeMethods ==>
              IsCallable(b, className) == (if b.classes[className].isFinal then No else Maybe)
  {
  }

  /** Asking for the signature of a value fails exactly when the value is
      certainly not callable, except that `Closure` always gets the trivial
      signature; on success a callable class yields its `__invoke`. */
  lemma CallableAcceptorFailsIffNotCallable(b: Broker, className: string)
    requires Valid(b)
    ensures GetCallableParametersAcceptor(b, className).Failure? <==>
              className != Closure && IsCallable(b, className) == No
    ensures IsCallable(b, className) == Yes && className != Closure ==>
              GetCallableParametersAcceptor(b, className) ==
                Success(InvokeAcceptor(b.classes[className].nativeMethods["__invoke"]))
  {
  }

  // ---------------------------------------------------------------------
  // canCallMethods, member probes, conversions

  /** Only `stdClass`, in any letter case, refuses method calls. */
  lemma {:induction false} CanCallMethodsIgnoresCase(a: string, c: string)
    requires |a| == |c|
    requires forall i :: 0 <= i < |a| ==> LowerChar(a[i]) == LowerChar(c[i])
    ensures CanCallMethods(a) == CanCallMethods(c)
  {
    assert ToLower(a) == ToLower(c);
  }

  lemma StdClassCannotCallMethods()
    ensures CanCallMethods("stdClass") == No
    ensures CanCallMethods("STDCLASS") == No
    ensures CanCallMethods("Closure") == Yes
  {
    assert ToLower("stdClass") == "stdclass";
    assert ToLower("STDCLASS") == "stdclass";
    assert ToLower("Closure")[0] == 'c';
  }

  // ---------------------------------------------------------------------
  // member probes, the string conversion, setOffsetValueType and
  // getReferencedClasses

  /** The member probes and the string conversion depend only on the class a
      name resolves to: an alias key answers as the canonical name does, and
      an unknown name answers `false` (the conversion: an error). */
  lemma MemberProbesFollowAliases(b: Broker, className: string, name: string)
    requires Valid(b)
    ensures className in b.classes ==>
              && Canonical(b, className) in b.classes
              && HasProperty(b, Canonical(b, className), name) == HasProperty(b, className, name)
              && HasMethod(b, Canonical(b, className), name) == HasMethod(b, className, name)
              && HasConstant(b, Canonical(b, className), name) == HasConstant(b, className, name)
              && ToStringType(b, Canonical(b, className)) == ToStringType(b, className)
    ensures className !in b.classes ==>
              && !HasProperty(b, className, name) && !HasMethod(b, className, name)
              && !HasConstant(b, className, name) && ToStringType(b, className) == ErrorT
  {
    if className in b.classes {
      assert WellFormedAt(b, className);
    }
  }

  /** Every property reflection lists for a class is reported by
      `hasProperty`, both on that class and on the class that declares it. */
  lemma ListedPropertiesAreReported(b: Broker, className: string)
    requires Valid(b) && className in b.classes
    ensures forall p :: p in b.classes[className].properties ==>
              p.declaringClass in b.classes &&
              HasProperty(b, className, p.name) && HasProperty(b, p.declaringClass, p.name)
  {
    assert WellFormedAt(b, className);
  }

  /** A universal object crate has every property, and its array shape is
      the unconstrained `array<mixed, mixed>`: the crate extension makes both
      queries give up on the declared properties. */
  lemma UniversalCrateIsUnconstrained(b: Broker, className: string, name: string)
    requires Valid(b) && className in b.classes && b.classes[className].isUniversalObjectCrate
    ensures HasProperty(b, className, name)
    ensures ObjectToArray.ToArrayOf(b, className) == ArrayT(MixedT, MixedT)
  {
  }

  /** An object converts to a string exactly when `hasMethod` reports
      `__toString` on its class, and to an error otherwise. */
  lemma StringConversionFollowsToStringMethod(b: Broker, className: string)
    ensures ToStringType(b, className) == StringT <==> HasMethod(b, className, "__toString")
    ensures ToStringType(b, className) != StringT ==> ToStringType(b, className) == ErrorT
  {
  }

  /** Writing an offset yields a type equivalent to the receiver: each is a
      `Yes` supertype of the other, and the receiver accepts the result. */
  lemma SetOffsetIsEquivalentToReceiver(b: Broker, hooks: CompoundHooks, className: string,
                                        offsetType: Option<Type>, valueType: Type)
    requires Valid(b)
    ensures var t := SetOffsetValueType(className, offsetType, valueType);
            && IsSuperTypeOf(b, hooks, className, t) == Yes
            && Accepts(b, hooks, className, t)
            && t.ObjectT? && IsSuperTypeOf(b, hooks, t.className, ObjectT(className)) == Yes
  {
  }

  /** The one referenced class is the class name the object type reports. */
  lemma ReferencedClassIsClassName(className: string)
    ensures var r := GetReferencedClasses(className);
            |r| == 1 && ClassNameOf(ObjectT(className)) == Some(r[0])
  {
  }
}
