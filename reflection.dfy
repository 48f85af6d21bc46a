/** The part of .NET reflection the element loader relies on: a type's
    simple name, whether it is an open generic definition, its generic
    arguments, the interfaces it reports, its base-type chain and the names
    of the public static methods it declares. */
module Reflection {
  import opened Wrappers

  /** A runtime type. `parameterCount` is the number of generic parameters of
      the type's definition (0 for a non-generic type); an open definition has
      no `args`, a constructed type has one argument per parameter.
      `interfaces` is what `GetInterfaces` reports, inherited ones included. */
  datatype TypeRef = TypeRef(
    name: string,
    isGenericDefinition: bool,
    parameterCount: nat,
    args: seq<TypeRef>,
    interfaces: seq<TypeRef>,
    baseType: Option<TypeRef>,
    publicStaticMethods: set<string>)
  {
    /** `Type.IsGenericType`: open definitions and constructed generics alike. */
    predicate IsGenericType() {
      parameterCount > 0
    }

    /** The shape every type the runtime hands out has. */
    predicate WellFormed() {
      if isGenericDefinition then parameterCount > 0 && args == []
      else |args| == parameterCount
    }
  }

  /** `System.Object`, the end of every base-type chain. */
  const ObjectType := TypeRef("Object", false, 0, [], [], None, {})

  /** `Type.MakeGenericType` fails with an argument error when it is given
      a different number of arguments than the definition has parameters. */
  datatype ArityMismatch = ArityMismatch(definition: TypeRef, expected: nat, given: nat)

  /** `Type.MakeGenericType`: closes an open definition over `typeArgs`. */
  function MakeGenericType(definition: TypeRef, typeArgs: seq<TypeRef>): (r: Result<TypeRef, ArityMismatch>)
    requires definition.isGenericDefinition
    ensures r.Ok? <==> |typeArgs| == definition.parameterCount
    ensures r.Err? ==> r.error == ArityMismatch(definition, definition.parameterCount, |typeArgs|)
    ensures r.Ok? ==> !r.value.isGenericDefinition && r.value.args == typeArgs
    ensures r.Ok? ==> r.value.name == definition.name && r.value.interfaces == definition.interfaces
    ensures r.Ok? && definition.WellFormed() ==> r.value.WellFormed() && r.value.IsGenericType()
  {
    if |typeArgs| != definition.parameterCount then
      Err(ArityMismatch(definition, definition.parameterCount, |typeArgs|))
    else
      Ok(definition.(isGenericDefinition := false, args := typeArgs))
  }

  /** `Type.GetGenericTypeDefinition`: a constructed type forgets its
      arguments; a well-formed definition is its own definition. */
  function GenericTypeDefinition(t: TypeRef): (r: TypeRef)
    requires t.IsGenericType()
    ensures r.isGenericDefinition && r.args == [] && r.IsGenericType()
    ensures r.name == t.name && r.interfaces == t.interfaces && r.baseType == t.baseType
  {
    t.(isGenericDefinition := true, args := [])
  }

  /** Closing a well-formed definition and asking for its definition gives
      back the definition itself. */
  lemma DefinitionOfConstructed(definition: TypeRef, typeArgs: seq<TypeRef>)
    requires definition.isGenericDefinition && definition.WellFormed()
    requires |typeArgs| == definition.parameterCount
    ensures MakeGenericType(definition, typeArgs).Ok?
    ensures GenericTypeDefinition(MakeGenericType(definition, typeArgs).value) == definition
  {
  }

  /** The type, its base type, the base type's base type and so on. */
  function BaseChain(t: TypeRef): (chain: seq<TypeRef>)
    ensures |chain| >= 1 && chain[0] == t
    decreases t
  {
    match t.baseType
    case None => [t]
    case Some(b) => [t] + BaseChain(b)
  }

  /** `GetMethod(name, Public | FlattenHierarchy | Static)`: the first type
      on the base chain that declares a public static method of that name,
      or null. */
  function FindPublicStaticMethod(t: TypeRef, methodName: string): (declaring: Option<TypeRef>)
    ensures declaring.Some? ==> methodName in declaring.value.publicStaticMethods
    ensures declaring.Some? ==>
              exists k :: 0 <= k < |BaseChain(t)| && BaseChain(t)[k] == declaring.value &&
                          forall j :: 0 <= j < k ==> methodName !in BaseChain(t)[j].publicStaticMethods
    ensures declaring.None? <==>
      forall k :: 0 <= k < |BaseChain(t)| ==> methodName !in BaseChain(t)[k].publicStaticMethods
    decreases t
  {
    if methodName in t.publicStaticMethods then
      assert BaseChain(t)[0] == t;
      Some(t)
    else match t.baseType
      case None => None
      case Some(b) =>
        var found := FindPublicStaticMethod(b, methodName);
        if found.Some? then
          ghost var k :| 0 <= k < |BaseChain(b)| && BaseChain(b)[k] == found.value &&
                         forall j :: 0 <= j < k ==> methodName !in BaseChain(b)[j].publicStaticMethods;
          assert BaseChain(t) == [t] + BaseChain(b);
          assert BaseChain(t)[k + 1] == found.value;
          found
        else found
  }
}
