/** The introspection-type filter of `render.js`.

    `render.js` keeps its introspection names in a plain object built by
    `setOf` and skips a type when `introspectionTypes[type.name]` is truthy.
    A property lookup on a plain object also finds the members every object
    inherits from `Object.prototype`, all of them truthy. So a type whose
    name is one of those members, such as `constructor` or `toString`, which
    are legal GraphQL names, is skipped as if it were an introspection type.
    `render.ts` keeps the names in a `Set` and asks `has`, which sees only
    the names put in. The model renders with the `Set` behaviour
    (`Schema.Visible`); this module holds the lookup as written, an input
    it gets wrong, and the own-key lookup proved to agree with the `Set`. */
module Findings {
  import opened Text
  import opened Schema

  /** The introspection names in the order `setOf` receives them. */
  const IntrospectionList: seq<string> := [
    "__Schema", "__Type", "__TypeKind", "__Field", "__InputValue",
    "__EnumValue", "__Directive", "__DirectiveLocation"
  ]

  /** `setOf(array)`: an object with the key `true` for every element. */
  function SetOf(names: seq<string>): (m: map<string, bool>)
    ensures forall k :: k in m <==> k in names
    ensures forall k :: k in m ==> m[k]
  {
    if names == [] then map[]
    else SetOf(names[..|names| - 1])[names[|names| - 1] := true]
  }

  /** The properties every plain object inherits from `Object.prototype`;
      each one's value is truthy. */
  const ObjectPrototypeMembers: set<string> := {
    "constructor", "toString", "toLocaleString", "valueOf", "hasOwnProperty",
    "isPrototypeOf", "propertyIsEnumerable", "__proto__", "__defineGetter__",
    "__defineSetter__", "__lookupGetter__", "__lookupSetter__"
  }

  /** `!!object[key]` as written: own keys and inherited members alike. */
  predicate LookupAsWritten(props: map<string, bool>, key: string) {
    (key in props && props[key]) || key in ObjectPrototypeMembers
  }

  /** The lookup that was meant: own keys only. */
  predicate LookupOwn(props: map<string, bool>, key: string) {
    key in props && props[key]
  }

  /** The types `render.js` keeps: `types.filter(t => !introspectionTypes[t.name])`. */
  function KeptAsWritten(types: seq<TypeDef>): seq<TypeDef> {
    Filter(types, (t: TypeDef) => !LookupAsWritten(SetOf(IntrospectionList), t.name))
  }

  /** The same filter with the own-key lookup. */
  function KeptCorrected(types: seq<TypeDef>): seq<TypeDef> {
    Filter(types, (t: TypeDef) => !LookupOwn(SetOf(IntrospectionList), t.name))
  }

  /** An object type named `constructor`: a legal GraphQL name, not an
      introspection type, and kept by `render.ts`, but dropped by the lookup
      of `render.js`, so the type gets no declaration. */
  lemma ConstructorTypeDropped()
    ensures var t := TypeDef(Object, "constructor", "", [], [], [], [], []);
      IsName(t.name) && Visible(t) &&
      Filter([t], Visible) == [t] && KeptAsWritten([t]) == []
  {
    var t := TypeDef(Object, "constructor", "", [], [], [], [], []);
    assert "constructor" in ObjectPrototypeMembers;
    assert LookupAsWritten(SetOf(IntrospectionList), t.name);
    assert Filter([t], Visible) == [t] + Filter([t][1..], Visible);
  }

  /** The lookup as written hides exactly the introspection names and the
      inherited members. */
  lemma AsWrittenHides(name: string)
    ensures LookupAsWritten(SetOf(IntrospectionList), name) <==>
      name in IntrospectionNames || name in ObjectPrototypeMembers
  {
    IntrospectionListMatches(name);
  }

  lemma IntrospectionListMatches(name: string)
    ensures name in IntrospectionList <==> name in IntrospectionNames
  {
    if name in IntrospectionNames {
      assert name == "__Schema" || name == "__Type" || name == "__TypeKind" || name == "__Field" ||
             name == "__InputValue" || name == "__EnumValue" || name == "__Directive" ||
             name == "__DirectiveLocation";
    }
  }

  /** With the own-key lookup `render.js` keeps exactly the types `render.ts`
      keeps. */
  lemma CorrectedKeepsVisible(types: seq<TypeDef>)
    ensures KeptCorrected(types) == Filter(types, Visible)
  {
    forall i | 0 <= i < |types|
      ensures !LookupOwn(SetOf(IntrospectionList), types[i].name) == Visible(types[i])
    {
      IntrospectionListMatches(types[i].name);
    }
    FilterCongruent(types, (t: TypeDef) => !LookupOwn(SetOf(IntrospectionList), t.name), Visible);
  }
}
