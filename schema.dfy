/** The introspection result the renderer reads: named types with their
    fields, arguments, enum values, implemented interfaces and possible types,
    and the names of the root operation types.

    A description that JavaScript treats as falsy (`null`, `undefined` or the
    empty string) is the empty string here. A list the introspection leaves
    `null` (`interfaces` of a union, say) is the empty sequence. */
module Schema {
  import opened Text

  /** The kind of a named type. `LIST` and `NON_NULL` are the wrappers of
      `TypeRef`. */
  datatype Kind = Scalar | Object | Interface | Union | Enum | InputObject

  /** A reference to a type: a named type, or a list or non-null wrapper
      around another reference. */
  datatype TypeRef =
    | Named(kind: Kind, name: string)
    | ListOf(ofType: TypeRef)
    | NonNull(ofType: TypeRef)

  /** An argument or an input field. Its default value is never rendered. */
  datatype InputValue = InputValue(name: string, description: string, typ: TypeRef)

  datatype Field = Field(name: string, description: string, args: seq<InputValue>, typ: TypeRef)

  datatype EnumValue = EnumValue(name: string, description: string)

  /** A named type. Only the lists that belong to its kind are used:
      `fields` and `interfaces` for objects and interfaces, `possibleTypes`
      for unions and interfaces, `enumValues` for enums and `inputFields` for
      input objects; `interfaces` and `possibleTypes` hold type names. */
  datatype TypeDef = TypeDef(
    kind: Kind,
    name: string,
    description: string,
    fields: seq<Field>,
    interfaces: seq<string>,
    possibleTypes: seq<string>,
    enumValues: seq<EnumValue>,
    inputFields: seq<InputValue>)

  /** `__schema`: the root operation types, of which only the query type is
      mandatory, and all named types in introspection order. */
  datatype IntrospectionSchema = IntrospectionSchema(
    queryType: string,
    mutationType: Option<string>,
    subscriptionType: Option<string>,
    types: seq<TypeDef>)

  /** The types of the introspection system itself, never rendered. */
  const IntrospectionNames: set<string> := {
    "__Schema", "__Type", "__TypeKind", "__Field", "__InputValue",
    "__EnumValue", "__Directive", "__DirectiveLocation"
  }

  /** Every section skips the introspection types. */
  predicate Visible(t: TypeDef) {
    t.name !in IntrospectionNames
  }

  /** Unions and interfaces: the types a value is resolved to at run time. */
  predicate IsAbstract(t: TypeDef) {
    t.kind == Union || t.kind == Interface
  }

  /** The top-level wrapper of a field or argument type is not `NON_NULL`. */
  predicate Nullable(t: TypeRef) {
    !t.NonNull?
  }

  /** A GraphQL name: letters, digits and underscores. */
  predicate IsName(n: string) {
    |n| > 0 && forall i :: 0 <= i < |n| ==> NameChar(n[i])
  }

  predicate NameChar(c: char) {
    'a' <= c <= 'z' || 'A' <= c <= 'Z' || '0' <= c <= '9' || c == '_'
  }

  /** Every name a type reference mentions is a GraphQL name. */
  predicate NamesOk(t: TypeRef) {
    match t
    case Named(_, n) => IsName(n)
    case ListOf(e) => NamesOk(e)
    case NonNull(e) => NamesOk(e)
  }

  /** A GraphQL name is one line and has no blank or punctuation in it. */
  lemma NameHasNoSeparator(n: string)
    requires IsName(n)
    ensures SingleLine(n)
    ensures forall i :: 0 <= i < |n| ==> n[i] != ' ' && n[i] != ')' && n[i] != '\n'
  {
  }
}
