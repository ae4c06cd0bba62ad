/** `ObjectType::toArray`: the array shape an object converts to.  For a
    known class that is not a universal object crate, the source walks the
    parent chain and, level by level, turns every non-static property into
    one key/value pair of a constant array; the key is the name of the
    declaring class followed by the property name. */
module ObjectToArray {
  import opened Wrappers
  import opened Types
  import opened ClassRegistry

  /** One key/value pair of the resulting constant array. */
  datatype ArrayEntry = ArrayEntry(key: Type, value: Type)

  ghost predicate DeclaringClassesKnown(b: Broker, ps: seq<Property>) {
    forall p :: p in ps ==> p.declaringClass in b.classes
  }

  function MangledKey(b: Broker, p: Property): string
    requires p.declaringClass in b.classes
  {
    Canonical(b, p.declaringClass) + p.name
  }

  function EntryOf(b: Broker, p: Property): ArrayEntry
    requires p.declaringClass in b.classes
  {
    ArrayEntry(ConstantStringT(MangledKey(b, p)), p.declaredType)
  }

  /** The entries one level contributes, in declaration order. */
  function LevelEntries(b: Broker, ps: seq<Property>): seq<ArrayEntry>
    requires DeclaringClassesKnown(b, ps)
  {
    if ps == [] then []
    else
      var last := ps[|ps| - 1];
      LevelEntries(b, ps[..|ps| - 1]) + (if last.isStatic then [] else [EntryOf(b, last)])
  }

  /** The entries of a class followed by those of its ancestors. */
  function ChainEntries(b: Broker, n: string): seq<ArrayEntry>
    requires Valid(b) && n in b.classes
    decreases b.classes[n].depth
  {
    var d := b.classes[n];
    assert WellFormedAt(b, n);
    LevelEntries(b, d.properties) +
      match d.parent
      case None => []
      case Some(p) => ChainEntries(b, p)
  }

  /** The class itself and its ancestor classes, from the class upwards. */
  function ParentChain(b: Broker, n: string): seq<string>
    requires Valid(b) && n in b.classes
    decreases b.classes[n].depth
  {
    assert WellFormedAt(b, n);
    [n] + match b.classes[n].parent
          case None => []
          case Some(p) => ParentChain(b, p)
  }

  function Keys(es: seq<ArrayEntry>): seq<Type> {
    seq(|es|, i requires 0 <= i < |es| => es[i].key)
  }

  function Values(es: seq<ArrayEntry>): seq<Type> {
    seq(|es|, i requires 0 <= i < |es| => es[i].value)
  }

  /** The type `toArray` yields. */
  function ToArrayOf(b: Broker, className: string): Type
    requires Valid(b)
  {
    if !HasClass(b, className) || b.classes[className].isUniversalObjectCrate then ArrayT(MixedT, MixedT)
    else
      var es := ChainEntries(b, className);
      ConstantArrayT(Keys(es), Values(es))
  }

  /** Appending an entry appends its key and its value. */
  lemma KeysValuesSnoc(es: seq<ArrayEntry>, e: ArrayEntry)
    ensures Keys(es + [e]) == Keys(es) + [e.key]
    ensures Values(es + [e]) == Values(es) + [e.value]
  {
  }

  /** One more property of a level appends at most its own entry. */
  lemma LevelEntriesStep(b: Broker, ps: seq<Property>, i: nat)
    requires i < |ps| && DeclaringClassesKnown(b, ps)
    ensures DeclaringClassesKnown(b, ps[..i]) && DeclaringClassesKnown(b, ps[..i + 1])
    ensures ps[i].declaringClass in b.classes
    ensures LevelEntries(b, ps[..i + 1]) ==
              LevelEntries(b, ps[..i]) + (if ps[i].isStatic then [] else [EntryOf(b, ps[i])])
  {
    assert ps[..i + 1][..i] == ps[..i];
  }

  /** The chain of a class is its own level followed by its parent's chain. */
  lemma ChainEntriesUnfold(b: Broker, n: string)
    requires Valid(b) && n in b.classes
    ensures DeclaringClassesKnown(b, b.classes[n].properties)
    ensures b.classes[n].parent.Some? ==>
              (b.classes[n].parent.value in b.classes &&
               b.classes[b.classes[n].parent.value].depth < b.classes[n].depth)
    ensures ChainEntries(b, n) == LevelEntries(b, b.classes[n].properties) +
              match b.classes[n].parent
              case None => []
              case Some(p) => ChainEntries(b, p)
  {
    assert WellFormedAt(b, n);
  }

  /** The inner `foreach` of the source: appends the key and the value of
      every non-static property of one level. */
  method AppendLevel(b: Broker, props: seq<Property>, keys: seq<Type>, values: seq<Type>, ghost entries: seq<ArrayEntry>)
    returns (keys': seq<Type>, values': seq<Type>, ghost entries': seq<ArrayEntry>)
    requires DeclaringClassesKnown(b, props)
    requires keys == Keys(entries) && values == Values(entries)
    ensures keys' == Keys(entries') && values' == Values(entries')
    ensures entries' == entries + LevelEntries(b, props)
  {
    keys', values', entries' := keys, values, entries;
    for i := 0 to |props|
      invariant keys' == Keys(entries') && values' == Values(entries')
      invariant entries' == entries + LevelEntries(b, props[..i])
    {
      var p := props[i];
      LevelEntriesStep(b, props, i);
      if !p.isStatic {
        var key := ConstantStringT(b.classes[p.declaringClass].name + p.name);
        KeysValuesSnoc(entries', ArrayEntry(key, p.declaredType));
        keys' := keys' + [key];
        values' := values' + [p.declaredType];
        entries' := entries' + [ArrayEntry(key, p.declaredType)];
      }
    }
    assert props[..|props|] == props;
  }

  /** The source's do-while loop over the parent chain, appending to the key
      and value lists. */
  method ToArray(b: Broker, className: string) returns (t: Type)
    requires Valid(b)
    ensures t == ToArrayOf(b, className)
  {
    if !HasClass(b, className) {
      return ArrayT(MixedT, MixedT);
    }
    var cls := b.classes[className];
    if cls.isUniversalObjectCrate {
      return ArrayT(MixedT, MixedT);
    }
    var arrayKeys: seq<Type> := [];
    var arrayValues: seq<Type> := [];
    ghost var entries: seq<ArrayEntry> := [];
    var current := className;
    var more := true;
    while more
      invariant current in b.classes && cls == b.classes[current]
      invariant arrayKeys == Keys(entries) && arrayValues == Values(entries)
      invariant more ==> entries + ChainEntries(b, current) == ChainEntries(b, className)
      invariant !more ==> entries == ChainEntries(b, className)
      decreases more, cls.depth
    {
      ChainEntriesUnfold(b, current);
      ghost var level := LevelEntries(b, cls.properties);
      ghost var before := entries;
      arrayKeys, arrayValues, entries := AppendLevel(b, cls.properties, arrayKeys, arrayValues, entries);
      match cls.parent {
        case None =>
          assert ChainEntries(b, current) == level + [];
          more := false;
        case Some(parent) =>
          ghost var rest := ChainEntries(b, parent);
          assert before + (level + rest) == (before + level) + rest;
          current := parent;
          cls := b.classes[parent];
      }
    }
    t := ConstantArrayT(arrayKeys, arrayValues);
  }

  // ---------------------------------------------------------------------
  // properties of the result

  /** An entry of one level is the entry of one of its non-static
      properties, and every non-static property contributes one. */
  lemma {:induction false} LevelEntriesMembership(b: Broker, ps: seq<Property>, e: ArrayEntry)
    requires DeclaringClassesKnown(b, ps)
    ensures e in LevelEntries(b, ps) <==> exists p :: p in ps && !p.isStatic && e == EntryOf(b, p)
  {
    if ps != [] {
      var init, last := ps[..|ps| - 1], ps[|ps| - 1];
      assert ps == init + [last];
      LevelEntriesMembership(b, init, e);
      if exists p :: p in ps && !p.isStatic && e == EntryOf(b, p) {
        var p :| p in ps && !p.isStatic && e == EntryOf(b, p);
        if p != last {
          assert p in init;
        }
      }
    }
  }

  /** `e` is the entry of a non-static property listed for class `c`. */
  ghost predicate EntryOfLevel(b: Broker, c: string, e: ArrayEntry)
    requires c in b.classes
  {
    exists p :: p in b.classes[c].properties && !p.isStatic &&
                p.declaringClass in b.classes && e == EntryOf(b, p)
  }

  /** An entry of the result comes from a non-static property of the class
      or of one of its ancestor classes, and each such property gives one. */
  lemma {:induction false} ChainEntriesMembership(b: Broker, n: string, e: ArrayEntry)
    requires Valid(b) && n in b.classes
    ensures e in ChainEntries(b, n) <==>
              exists c :: c in ParentChain(b, n) && c in b.classes && EntryOfLevel(b, c, e)
    decreases b.classes[n].depth
  {
    var d := b.classes[n];
    assert WellFormedAt(b, n);
    LevelEntriesMembership(b, d.properties, e);
    assert e in LevelEntries(b, d.properties) <==> EntryOfLevel(b, n, e);
    match d.parent {
      case None =>
        assert ParentChain(b, n) == [n];
      case Some(q) =>
        assert WellFormedAt(b, q);
        ChainEntriesMembership(b, q, e);
        assert ParentChain(b, n) == [n] + ParentChain(b, q);
        if exists c :: c in ParentChain(b, n) && c in b.classes && EntryOfLevel(b, c, e) {
          var c :| c in ParentChain(b, n) && c in b.classes && EntryOfLevel(b, c, e);
          if c != n {
            assert c in ParentChain(b, q);
          }
        }
    }
  }

  /** The parent chain ends at a class without a parent: the loop stops
      exactly when no parent is left. */
  lemma {:induction false} ParentChainEndsAtRoot(b: Broker, n: string)
    requires Valid(b) && n in b.classes
    ensures |ParentChain(b, n)| >= 1 && ParentChain(b, n)[0] == n
    ensures var last := ParentChain(b, n)[|ParentChain(b, n)| - 1];
            last in b.classes && b.classes[last].parent.None?
    ensures forall i :: 0 <= i < |ParentChain(b, n)| - 1 ==>
              ParentChain(b, n)[i] in b.classes &&
              b.classes[ParentChain(b, n)[i]].parent == Some(ParentChain(b, n)[i + 1])
    decreases b.classes[n].depth
  {
    assert WellFormedAt(b, n);
    match b.classes[n].parent {
      case None =>
      case Some(q) =>
        ParentChainEndsAtRoot(b, q);
        assert ParentChain(b, n) == [n] + ParentChain(b, q);
    }
  }

  /** The number of non-static properties in a list. */
  function NonStaticCount(ps: seq<Property>): nat {
    if ps == [] then 0
    else NonStaticCount(ps[..|ps| - 1]) + (if ps[|ps| - 1].isStatic then 0 else 1)
  }

  /** The number of non-static properties listed, level by level, for the
      class and its ancestor classes. */
  function ChainCount(b: Broker, n: string): nat
    requires Valid(b) && n in b.classes
    decreases b.classes[n].depth
  {
    var d := b.classes[n];
    assert WellFormedAt(b, n);
    NonStaticCount(d.properties) +
      match d.parent
      case None => 0
      case Some(p) => ChainCount(b, p)
  }

  /** A level contributes exactly one entry per non-static property. */
  lemma {:induction false} LevelEntriesCount(b: Broker, ps: seq<Property>)
    requires DeclaringClassesKnown(b, ps)
    ensures |LevelEntries(b, ps)| == NonStaticCount(ps)
  {
    if ps != [] {
      LevelEntriesCount(b, ps[..|ps| - 1]);
    }
  }

  /** The chain contributes exactly one entry per non-static property of
      every level: nothing is merged or repeated across levels. */
  lemma {:induction false} ChainEntriesCount(b: Broker, n: string)
    requires Valid(b) && n in b.classes
    ensures |ChainEntries(b, n)| == ChainCount(b, n)
    decreases b.classes[n].depth
  {
    var d := b.classes[n];
    assert WellFormedAt(b, n);
    LevelEntriesCount(b, d.properties);
    match d.parent {
      case None =>
      case Some(q) =>
        assert WellFormedAt(b, q);
        ChainEntriesCount(b, q);
    }
  }

  /** Position `i` of the constant array `t` holds the pair `e`. */
  ghost predicate HasPair(t: Type, e: ArrayEntry)
    requires t.ConstantArrayT?
  {
    exists i :: 0 <= i < |t.keyTypes| && i < |t.valueTypes| &&
                t.keyTypes[i] == e.key && t.valueTypes[i] == e.value
  }

  /** Unknown classes and universal object crates convert to an array of
      mixed keys and values.  Any other class converts to a constant array
      with as many keys as values whose key/value pairs are exactly the
      entries of the non-static properties listed for the class and its
      ancestor classes, mangled name to declared type, one entry for each
      such property of each level. */
  lemma ToArrayShape(b: Broker, className: string)
    requires Valid(b)
    ensures !HasClass(b, className) || b.classes[className].isUniversalObjectCrate ==>
              ToArrayOf(b, className) == ArrayT(MixedT, MixedT)
    ensures HasClass(b, className) && !b.classes[className].isUniversalObjectCrate ==>
              var t := ToArrayOf(b, className);
              && t.ConstantArrayT? && |t.keyTypes| == |t.valueTypes|
              && |t.keyTypes| == ChainCount(b, className)
              && forall e :: HasPair(t, e) <==>
                   exists c :: c in ParentChain(b, className) && c in b.classes && EntryOfLevel(b, c, e)
  {
    if HasClass(b, className) && !b.classes[className].isUniversalObjectCrate {
      var es := ChainEntries(b, className);
      var t := ToArrayOf(b, className);
      ChainEntriesCount(b, className);
      forall e
        ensures HasPair(t, e) <==>
                  exists c :: c in ParentChain(b, className) && c in b.classes && EntryOfLevel(b, c, e)
      {
        ChainEntriesMembership(b, className, e);
        if HasPair(t, e) {
          var i :| 0 <= i < |t.keyTypes| && i < |t.valueTypes| &&
                   t.keyTypes[i] == e.key && t.valueTypes[i] == e.value;
          assert es[i] == e;
        }
        if e in es {
          var i :| 0 <= i < |es| && es[i] == e;
          assert t.keyTypes[i] == e.key && t.valueTypes[i] == e.value;
        }
      }
    }
  }

  /** A final class `Cls` without parent and with the non-static properties
      `a: int` and `b: string` converts to the constant array
      `{"Clsa": int, "Clsb": string}`. */
  lemma TwoPropertyExample()
    ensures var cls := ClassDescriptor("Cls", None, {}, false, true,
                                       [Property("a", "Cls", false, IntegerT),
                                        Property("b", "Cls", false, StringT)],
                                       {}, map[], {}, false, 0);
            var b := Broker(map["Cls" := cls]);
            Valid(b) &&
            ToArrayOf(b, "Cls") ==
              ConstantArrayT([ConstantStringT("Clsa"), ConstantStringT("Clsb")], [IntegerT, StringT])
  {
    var pa, pb := Property("a", "Cls", false, IntegerT), Property("b", "Cls", false, StringT);
    var cls := ClassDescriptor("Cls", None, {}, false, true, [pa, pb], {}, map[], {}, false, 0);
    var b := Broker(map["Cls" := cls]);
    assert WellFormedAt(b, "Cls");
    assert [pa, pb][..1] == [pa];
    assert [pa][..0] == [];
    assert LevelEntries(b, [pa]) == [EntryOf(b, pa)];
    assert LevelEntries(b, [pa, pb]) == [EntryOf(b, pa), EntryOf(b, pb)];
    assert MangledKey(b, pa) == "Clsa";
    assert MangledKey(b, pb) == "Clsb";
  }
}
