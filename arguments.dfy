/** `renderArguments`: an `interface <field>Args` for every field of the
    root operation types, one line per argument.

    The two renderers differ in which types are roots and in how an argument
    type is written. `render.ts` takes the root names from the schema and
    writes the TypeScript type of a built-in scalar (or `any`); `render.js`
    takes the types named `Query`, `Mutation` and `Subscription` and writes
    the GraphQL name found at most one wrapper deep. */
module Arguments {
  import opened Text
  import opened Schema
  import opened TypeRefs
  import opened Declarations
  import opened TemplateShapes

  /** The names of the root operation types; a missing mutation or
      subscription type is `None`. */
  datatype RootTypes = RootTypes(queryType: string, mutationType: Option<string>, subscriptionType: Option<string>)

  /** Whether a type of this name is one of the roots. */
  predicate IsRoot(roots: RootTypes, name: string) {
    name == roots.queryType || roots.mutationType == Some(name) || roots.subscriptionType == Some(name)
  }

  /** `extractRootTypesFromSchema`. A missing root is replaced by a value
      that no type name equals (a fresh symbol in the source). */
  function ExtractRootTypes(s: IntrospectionSchema): (r: RootTypes)
    ensures forall name :: IsRoot(r, name) <==>
      name == s.queryType || s.mutationType == Some(name) || s.subscriptionType == Some(name)
    ensures s.mutationType.None? && s.subscriptionType.None? ==>
      forall name :: IsRoot(r, name) <==> name == s.queryType
  {
    RootTypes(s.queryType, s.mutationType, s.subscriptionType)
  }

  /** The fixed root names of `render.js`. */
  const FixedRootNames: set<string> := {"Mutation", "Query", "Subscription"}

  /** Whether a renderer treats a type of this name as a root. */
  predicate SelectsRoot(d: Dialect, roots: RootTypes, name: string) {
    match d
    case Ts => IsRoot(roots, name)
    case Js => name in FixedRootNames
  }

  /** The visible root types, in introspection order. */
  function RootTypeDefs(d: Dialect, types: seq<TypeDef>, roots: RootTypes): (r: seq<TypeDef>)
    ensures forall i :: 0 <= i < |r| ==> r[i] in types && Visible(r[i]) && SelectsRoot(d, roots, r[i].name)
    ensures forall i :: 0 <= i < |types| && Visible(types[i]) && SelectsRoot(d, roots, types[i].name) ==>
      types[i] in r
  {
    var visible := Filter(types, Visible);
    assert forall i :: 0 <= i < |types| && Visible(types[i]) ==> types[i] in visible;
    Filter(visible, IsRootOf(d, roots))
  }

  /** The root test of a renderer, as a filter. */
  function IsRootOf(d: Dialect, roots: RootTypes): TypeDef -> bool {
    (t: TypeDef) => SelectsRoot(d, roots, t.name)
  }

  /** The root types keep the order and multiplicity of the input. */
  lemma RootTypeDefsAppend(d: Dialect, a: seq<TypeDef>, b: seq<TypeDef>, roots: RootTypes)
    ensures RootTypeDefs(d, a + b, roots) == RootTypeDefs(d, a, roots) + RootTypeDefs(d, b, roots)
  {
    FilterAppend(a, b, Visible);
    FilterAppend(Filter(a, Visible), Filter(b, Visible), IsRootOf(d, roots));
  }

  lemma RootTypeDefsOne(d: Dialect, t: TypeDef, roots: RootTypes)
    ensures RootTypeDefs(d, [t], roots) == if Visible(t) && SelectsRoot(d, roots, t.name) then [t] else []
  {
    FilterOne(t, Visible);
    FilterOne(t, IsRootOf(d, roots));
  }

  /** The fields of the roots of a concatenation are those of each part, in
      turn; a root type contributes all its fields, in declared order. */
  lemma RootFieldsAppend(d: Dialect, a: seq<TypeDef>, b: seq<TypeDef>, roots: RootTypes)
    ensures RootFields(d, a + b, roots) == RootFields(d, a, roots) + RootFields(d, b, roots)
  {
    var fieldsOf := (t: TypeDef) => t.fields;
    RootTypeDefsAppend(d, a, b, roots);
    MapAppend(RootTypeDefs(d, a, roots), RootTypeDefs(d, b, roots), fieldsOf);
    FlattenAppend(Map(RootTypeDefs(d, a, roots), fieldsOf), Map(RootTypeDefs(d, b, roots), fieldsOf));
  }

  lemma RootFieldsOne(d: Dialect, t: TypeDef, roots: RootTypes)
    ensures RootFields(d, [t], roots) == if Visible(t) && SelectsRoot(d, roots, t.name) then t.fields else []
  {
    RootTypeDefsOne(d, t, roots);
    var fieldsOf := (t: TypeDef) => t.fields;
    if Visible(t) && SelectsRoot(d, roots, t.name) {
      assert Map([t], fieldsOf) == [t.fields];
      assert Flatten([t.fields]) == t.fields + Flatten([t.fields][1..]);
      assert [t.fields][1..] == [];
    }
  }

  /** The fields of the root types, concatenated in order. */
  function RootFields(d: Dialect, types: seq<TypeDef>, roots: RootTypes): seq<Field> {
    Flatten(Map(RootTypeDefs(d, types, roots), (t: TypeDef) => t.fields))
  }

  /** A field gets an arguments interface exactly when it belongs to a visible
      root type. */
  lemma RootFieldsAreRootTypeFields(d: Dialect, types: seq<TypeDef>, roots: RootTypes, f: Field)
    ensures f in RootFields(d, types, roots) <==>
      exists t :: t in types && Visible(t) && SelectsRoot(d, roots, t.name) && f in t.fields
  {
    var defs := RootTypeDefs(d, types, roots);
    var parts := Map(defs, (t: TypeDef) => t.fields);
    FlattenMember(parts, f);
    if f in RootFields(d, types, roots) {
      var i :| 0 <= i < |parts| && f in parts[i];
      assert defs[i] in types && f in defs[i].fields;
    }
    if exists t :: t in types && Visible(t) && SelectsRoot(d, roots, t.name) && f in t.fields {
      var t :| t in types && Visible(t) && SelectsRoot(d, roots, t.name) && f in t.fields;
      var j :| 0 <= j < |types| && types[j] == t;
      var i :| 0 <= i < |defs| && defs[i] == t;
      assert f in parts[i];
    }
  }

  /** With the conventional root names both renderers pick the same fields. */
  lemma ConventionalRootsAgree(types: seq<TypeDef>, s: IntrospectionSchema)
    requires s.queryType == "Query" && s.mutationType == Some("Mutation") &&
             s.subscriptionType == Some("Subscription")
    ensures RootFields(Ts, types, ExtractRootTypes(s)) == RootFields(Js, types, ExtractRootTypes(s))
  {
    var roots := ExtractRootTypes(s);
    var visible := Filter(types, Visible);
    FilterCongruent(visible, IsRootOf(Ts, roots), IsRootOf(Js, roots));
  }

  /** The GraphQL name a reference shows at most one wrapper deep. */
  function OneDeepName(t: TypeRef): Option<string> {
    match t
    case Named(_, n) => Some(n)
    case ListOf(e) => if e.Named? then Some(e.name) else None
    case NonNull(e) => if e.Named? then Some(e.name) else None
  }

  /** `getTypeRefName` (`render.ts`): the scalar table's type for a built-in
      scalar named directly or under one wrapper, `any` for everything else. */
  function ArgTypeName(t: TypeRef): (r: string)
    ensures r in {"string", "number", "boolean", "any"}
    ensures r != "any" <==> OneDeepName(t).Some? && OneDeepName(t).value in ScalarNames
    ensures r != "any" ==> ScalarType(OneDeepName(t).value) == Some(r)
  {
    if (t.NonNull? || t.ListOf?) && t.ofType.Named? && t.ofType.name in ScalarNames then
      ScalarType(t.ofType.name).value
    else if t.Named? && t.name in ScalarNames then
      ScalarType(t.name).value
    else
      "any"
  }

  /** `arg.type.ofType ? arg.type.ofType.name : arg.type.name` (`render.js`):
      the name one wrapper deep, and the text `null` for a wrapper around a
      wrapper, whose name is `null`. */
  function RawTypeName(t: TypeRef): (r: string)
    ensures OneDeepName(t).Some? ==> r == OneDeepName(t).value
    ensures OneDeepName(t).None? ==> r == "null"
  {
    match t
    case Named(_, n) => n
    case ListOf(e) => if e.Named? then e.name else "null"
    case NonNull(e) => if e.Named? then e.name else "null"
  }

  /** `render.ts` writes, for a built-in scalar, the table's type for the
      name `render.js` writes; for everything else it writes `any`. */
  lemma ArgTypeDialects(t: TypeRef)
    ensures ArgTypeName(t) != "any" ==> ScalarType(RawTypeName(t)) == Some(ArgTypeName(t))
    ensures OneDeepName(t).Some? && ArgTypeName(t) == "any" ==> RawTypeName(t) !in ScalarNames
  {
  }

  /** The argument type as each renderer writes it. */
  function ArgType(d: Dialect, t: TypeRef): string {
    match d
    case Ts => ArgTypeName(t)
    case Js => RawTypeName(t)
  }

  /** `renderArg`: `    name?: T`, with `?` for a nullable argument. */
  function RenderArg(d: Dialect, a: InputValue): (r: string)
    ensures StartsWith(r, Indent4 + a.name) && |r| > 4 + |a.name|
    ensures r[4 + |a.name|] == '?' <==> Nullable(a.typ)
    ensures EndsWith(r, ": " + ArgType(d, a.typ))
  {
    var mark := if a.typ.NonNull? then "" else "?";
    var head := Indent4 + a.name;
    var r := head + (mark + ": " + ArgType(d, a.typ));
    assert r[..|head|] == head;
    assert r[4 + |a.name|] == (mark + ": ")[0];
    assert r[|r| - |": " + ArgType(d, a.typ)|..] == ": " + ArgType(d, a.typ);
    r
  }

  /** `renderInputsInterfaces`: the interface of one field's arguments. It is
      emitted for a field without arguments too, with an empty line inside. */
  function ArgsBlock(d: Dialect, f: Field): string {
    "\nexport interface " + f.name + "Args {\n" + Join(Map(f.args, (a: InputValue) => RenderArg(d, a)), "\n") + "\n}\n"
  }

  /** An argument whose names are GraphQL names renders on one line. */
  lemma ArgSingleLine(d: Dialect, a: InputValue)
    requires IsName(a.name) && NamesOk(a.typ)
    ensures SingleLine(RenderArg(d, a))
  {
    NameHasNoSeparator(a.name);
    var ty := ArgType(d, a.typ);
    assert SingleLine(ty) by {
      match a.typ
      case Named(_, n) => NameHasNoSeparator(n);
      case ListOf(e) => if e.Named? { NameHasNoSeparator(e.name); }
      case NonNull(e) => if e.Named? { NameHasNoSeparator(e.name); }
    }
    var mark := if a.typ.NonNull? then "" else "?";
    assert RenderArg(d, a) == Indent4 + a.name + (mark + ": " + ty);
  }

  /** The lines of an arguments interface: a blank line, the head, one line
      per argument (or one empty line for none), the closing brace, and the
      empty rest after the final line break. */
  lemma ArgsBlockLines(d: Dialect, f: Field)
    requires SingleLine(f.name)
    requires forall i :: 0 <= i < |f.args| ==> IsName(f.args[i].name) && NamesOk(f.args[i].typ)
    ensures Lines(ArgsBlock(d, f)) ==
      ["", "export interface " + f.name + "Args {"] +
      (if |f.args| == 0 then [""] else Map(f.args, (a: InputValue) => RenderArg(d, a))) +
      ["}", ""]
  {
    var args := Map(f.args, (a: InputValue) => RenderArg(d, a));
    var head := "export interface " + f.name + "Args {";
    var mid := if |f.args| == 0 then [""] else args;
    assert AllSingleLine(mid) by {
      forall i | 0 <= i < |mid|
        ensures SingleLine(mid[i])
      {
        if |f.args| > 0 {
          ArgSingleLine(d, f.args[i]);
        }
      }
    }
    assert Join(mid, "\n") == Join(args, "\n");
    assert SingleLine(head) by {
      assert head == "export interface " + (f.name + "Args {");
    }
    var all := ["", head] + mid + ["}", ""];
    FramedSingleLine("", head, mid, "}", "");
    JoinFramed("", head, mid, "}", "", "\n");
    LinesOfJoin(all);
    ArgsBlockText(f.name, Join(args, "\n"));
  }

  lemma FramedSingleLine(a: string, head: string, mid: seq<string>, c: string, z: string)
    requires SingleLine(a) && SingleLine(head) && AllSingleLine(mid) && SingleLine(c) && SingleLine(z)
    ensures AllSingleLine([a, head] + mid + [c, z])
  {
    var all := [a, head] + mid + [c, z];
    forall i | 0 <= i < |all|
      ensures SingleLine(all[i])
    {
      if 2 <= i < 2 + |mid| {
        assert all[i] == mid[i - 2];
      }
    }
  }

  lemma ArgsBlockText(name: string, j: string)
    ensures "\nexport interface " + name + "Args {\n" + j + "\n}\n" ==
      "" + "\n" + ("export interface " + name + "Args {" + "\n" + j) + "\n" + "}" + "\n" + ""
  {
    var head := "export interface " + name + "Args {";
    calc {
      "\nexport interface " + name + "Args {\n" + j + "\n}\n";
      { assert "\nexport interface " + name + "Args {\n" == "\n" + head + "\n"; }
      "\n" + head + "\n" + j + "\n}\n";
      { assert "\n}\n" == "\n" + "}" + "\n"; }
      "\n" + (head + "\n" + j) + "\n" + "}" + "\n";
    }
  }

  /** Joining a head line, a body and a closing line between two ends. */
  lemma JoinFramed(a: string, head: string, mid: seq<string>, c: string, z: string, sep: string)
    requires |mid| >= 1
    ensures Join([a, head] + mid + [c, z], sep) ==
      a + sep + (head + sep + Join(mid, sep)) + sep + c + sep + z
  {
    var inner := [head] + mid;
    assert inner[1..] == mid;
    var front := [a] + inner;
    assert front[1..] == inner;
    JoinSnoc(front, c, sep);
    JoinSnoc(front + [c], z, sep);
    assert front + [c] + [z] == [a, head] + mid + [c, z];
  }

  /** `renderArguments`: the interfaces of all root fields, concatenated. */
  function RenderArguments(d: Dialect, types: seq<TypeDef>, roots: RootTypes): string {
    Join(Map(RootFields(d, types, roots), (f: Field) => ArgsBlock(d, f)), "")
  }

  /** The blocks of a concatenation are those of each part, in turn. */
  lemma ArgumentsAppend(d: Dialect, a: seq<TypeDef>, b: seq<TypeDef>, roots: RootTypes)
    requires |RootFields(d, a, roots)| > 0 && |RootFields(d, b, roots)| > 0
    ensures RenderArguments(d, a + b, roots) == RenderArguments(d, a, roots) + RenderArguments(d, b, roots)
  {
    var block := (f: Field) => ArgsBlock(d, f);
    RootFieldsAppend(d, a, b, roots);
    MapAppend(RootFields(d, a, roots), RootFields(d, b, roots), block);
    JoinAppend(Map(RootFields(d, a, roots), block), Map(RootFields(d, b, roots), block), "");
  }

  /** A visible root type gets one block per field, zero-argument fields
      included, in declared order; any other type gets none. */
  lemma ArgumentsOne(d: Dialect, t: TypeDef, roots: RootTypes)
    ensures RenderArguments(d, [t], roots) ==
      if Visible(t) && SelectsRoot(d, roots, t.name) then Join(Map(t.fields, (f: Field) => ArgsBlock(d, f)), "")
      else ""
  {
    RootFieldsOne(d, t, roots);
  }

  /** Every field of a present root operation type gets a block in
      `render.ts`, the mutation and subscription types included. */
  lemma PresentRootFieldsGetBlocks(types: seq<TypeDef>, s: IntrospectionSchema, t: TypeDef, f: Field)
    requires t in types && Visible(t) && f in t.fields
    requires t.name == s.queryType || s.mutationType == Some(t.name) || s.subscriptionType == Some(t.name)
    ensures f in RootFields(Ts, types, ExtractRootTypes(s))
  {
    RootFieldsAreRootTypeFields(Ts, types, ExtractRootTypes(s), f);
  }
}
