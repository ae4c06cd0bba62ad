/** The closed family of static types the object-type core produces and
    compares.  Only the variants that the object-type queries, `toArray`
    and the `&&` rule distinguish are kept apart; the rest of the type
    algebra is outside this model. */
module Types {
  import opened Wrappers

  datatype Type =
    | ObjectT(className: string)          // an object of a named class or interface
    | StaticT(baseClass: string)          // the late-static-bound `static` type
    | ObjectWithoutClassT                 // some object, class unknown
    | CompoundT(id: nat)                  // a union or intersection; members not modelled
    | MixedT
    | ErrorT
    | StringT
    | IntegerT
    | FloatT
    | BooleanT
    | NullT
    | ConstantBooleanT(value: bool)
    | ConstantStringT(text: string)
    | ArrayT(keyType: Type, itemType: Type)
    | ConstantArrayT(keyTypes: seq<Type>, valueTypes: seq<Type>)

  /** The class name of a type that carries one (the `TypeWithClassName`
      capability): object types and `static`, whose class name is its base
      class. */
  function ClassNameOf(t: Type): (r: Option<string>)
    ensures r.Some? <==> t.ObjectT? || t.StaticT?
  {
    match t
    case ObjectT(c) => Some(c)
    case StaticT(c) => Some(c)
    case _ => None
  }
}
