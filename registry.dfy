/** The class registry ("broker") that every object-type query resolves its
    class name through, modelled as an immutable map from a class name to the
    reflection facts about that class.  Several keys may map to the same
    descriptor: a class alias, or another spelling of a name the host
    language compares without regard to case, resolves to the descriptor of
    the class it denotes, whose `name` is the canonical one. */
module ClassRegistry {
  import opened Wrappers
  import opened Types

  /** One property as native reflection lists it for a class: its name, the
      class that declares it, whether it is static, and its declared type. */
  datatype Property = Property(name: string, declaringClass: string, isStatic: bool, declaredType: Type)

  /** The reflection facts about one class or interface.
      - `interfaces` is every interface the class implements (for an
        interface: every interface it extends), directly or inherited, as
        native reflection reports them.
      - `properties` is the list native reflection gives for this level of
        the hierarchy; inherited properties name their declaring class.
      - `methods` answers `hasMethod`; `nativeMethods` holds the natively
        declared methods with their declared return types.
      - `depth` is a measure that strictly decreases towards the root of the
        hierarchy; it stands for the acyclicity the host language enforces. */
  datatype ClassDescriptor = ClassDescriptor(
    name: string,
    parent: Option<string>,
    interfaces: set<string>,
    isInterface: bool,
    isFinal: bool,
    properties: seq<Property>,
    methods: set<string>,
    nativeMethods: map<string, Type>,
    constants: set<string>,
    isUniversalObjectCrate: bool,
    depth: nat)

  datatype Broker = Broker(classes: map<string, ClassDescriptor>)

  predicate HasClass(b: Broker, n: string) {
    n in b.classes
  }

  /** `n` is the canonical name of a known interface. */
  predicate IsInterfaceName(b: Broker, n: string) {
    n in b.classes && b.classes[n].name == n && b.classes[n].isInterface
  }

  /** The facts the host language guarantees about the descriptor under key `k`. */
  ghost predicate WellFormedAt(b: Broker, k: string)
    requires k in b.classes
  {
    var d := b.classes[k];
    // the canonical name resolves to the very same descriptor
    && d.name in b.classes && b.classes[d.name] == d
    // the parent is a known class (never an interface) closer to the root
    && (d.parent.Some? ==>
          && d.parent.value in b.classes
          && !b.classes[d.parent.value].isInterface
          && b.classes[d.parent.value].depth < d.depth)
    && (d.isInterface ==> d.parent.None?)
    // implemented interfaces are known interfaces closer to the root, and
    // the set is closed under interface inheritance
    && (forall i :: i in d.interfaces ==>
          && IsInterfaceName(b, i)
          && b.classes[i].depth < d.depth
          && b.classes[i].interfaces <= d.interfaces)
    // every declaring class is known and lists the property itself, with
    // the same declared type
    && (forall p :: p in d.properties ==>
          p.declaringClass in b.classes && p in b.classes[p.declaringClass].properties)
    // native methods are methods
    && d.nativeMethods.Keys <= d.methods
  }

  ghost predicate Valid(b: Broker) {
    forall k {:trigger WellFormedAt(b, k)} :: k in b.classes ==> WellFormedAt(b, k)
  }

  function Canonical(b: Broker, n: string): string
    requires n in b.classes
  {
    b.classes[n].name
  }

  /** The name native reflection resolves a class-name argument to. */
  function Resolve(b: Broker, n: string): string {
    if n in b.classes then Canonical(b, n) else n
  }

  /** The canonical names of every strict ancestor of `n`: the parent chain
      and every implemented interface. */
  function Ancestors(b: Broker, n: string): (r: set<string>)
    requires Valid(b) && n in b.classes
    decreases b.classes[n].depth
  {
    var d := b.classes[n];
    assert WellFormedAt(b, n);
    match d.parent
    case None => d.interfaces
    case Some(p) => d.interfaces + {Canonical(b, p)} + Ancestors(b, p)
  }

  /** Native `isSubclassOf`: the class under key `n` strictly extends or
      implements the class or interface named `target`. */
  predicate IsSubclassOf(b: Broker, n: string, target: string)
    requires Valid(b) && n in b.classes
  {
    Resolve(b, target) in Ancestors(b, n)
  }

  /** Native `implementsInterface`: like `instanceof`, it is reflexive, so an
      interface implements itself. */
  predicate ImplementsInterface(b: Broker, n: string, iface: string)
    requires n in b.classes
  {
    Resolve(b, iface) == Canonical(b, n) || Resolve(b, iface) in b.classes[n].interfaces
  }

  /** Every ancestor is the canonical name of a known class that lies
      strictly closer to the root. */
  lemma {:induction false} AncestorsShallower(b: Broker, n: string, a: string)
    requires Valid(b) && n in b.classes
    requires a in Ancestors(b, n)
    ensures a in b.classes && Canonical(b, a) == a
    ensures b.classes[a].depth < b.classes[n].depth
    decreases b.classes[n].depth
  {
    var d := b.classes[n];
    assert WellFormedAt(b, n);
    if a !in d.interfaces {
      var p := d.parent.value;
      assert WellFormedAt(b, p);
      if a != Canonical(b, p) {
        AncestorsShallower(b, p, a);
      }
    }
  }

  /** No class is its own strict ancestor. */
  lemma SubclassIrreflexive(b: Broker, n: string)
    requires Valid(b) && n in b.classes
    ensures !IsSubclassOf(b, n, n)
  {
    assert WellFormedAt(b, n);
    if IsSubclassOf(b, n, n) {
      AncestorsShallower(b, n, Canonical(b, n));
    }
  }

  /** Two classes are never strict ancestors of each other. */
  lemma SubclassAsymmetric(b: Broker, n: string, m: string)
    requires Valid(b) && n in b.classes && m in b.classes
    requires IsSubclassOf(b, n, m)
    ensures !IsSubclassOf(b, m, n)
  {
    assert WellFormedAt(b, n);
    assert WellFormedAt(b, m);
    AncestorsShallower(b, n, Canonical(b, m));
    if IsSubclassOf(b, m, n) {
      AncestorsShallower(b, m, Canonical(b, n));
    }
  }

  /** Ancestry is transitive: the ancestors of an ancestor are ancestors. */
  lemma {:induction false} AncestorsTransitive(b: Broker, n: string, m: string)
    requires Valid(b) && n in b.classes && m in b.classes
    requires Canonical(b, m) in Ancestors(b, n)
    ensures Ancestors(b, m) <= Ancestors(b, n)
    decreases b.classes[n].depth
  {
    var d := b.classes[n];
    assert WellFormedAt(b, n);
    assert WellFormedAt(b, m);
    var cm := Canonical(b, m);
    assert b.classes[cm] == b.classes[m];
    if cm in d.interfaces {
      // an interface has no parent; its ancestors are its interfaces,
      // which the closure condition puts among those of `n`
      assert b.classes[m].parent.None?;
    } else {
      var p := d.parent.value;
      assert WellFormedAt(b, p);
      if cm == Canonical(b, p) {
        assert b.classes[p] == b.classes[m];
      } else {
        AncestorsTransitive(b, p, m);
      }
    }
  }

  /** Ancestry depends only on the class a key resolves to, so an alias key
      and the canonical key have the same ancestors. */
  lemma AncestorsOfCanonical(b: Broker, n: string)
    requires Valid(b) && n in b.classes
    ensures Canonical(b, n) in b.classes
    ensures Ancestors(b, Canonical(b, n)) == Ancestors(b, n)
  {
    assert WellFormedAt(b, n);
  }

  /** For an interface, native `isSubclassOf` is `implementsInterface` minus
      the interface itself: an interface's only ancestors are the interfaces
      it extends, and `isSubclassOf` is strict. */
  lemma InterfaceSubclassIsImplements(b: Broker, n: string, target: string)
    requires Valid(b) && n in b.classes && b.classes[n].isInterface
    ensures IsSubclassOf(b, n, target) <==>
              ImplementsInterface(b, n, target) && Resolve(b, target) != Canonical(b, n)
  {
    assert WellFormedAt(b, n);
    if IsSubclassOf(b, n, target) {
      SubclassIrreflexive(b, n);
      AncestorsOfCanonical(b, n);
    }
  }
}
