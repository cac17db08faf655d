/** The declarations of the generated module: object types with their
    `__typename`, enums, unions, interfaces, input objects and the default
    `__resolveType` resolvers, and the sections that list them.

    The `.ts` and `.js` renderers differ in two places, selected by
    `Dialect`: the `__typename` line of an object type, and the separator
    between enum declarations. */
module Declarations {
  import opened Text
  import opened Schema
  import opened TypeRefs
  import opened RenderTag
  import opened RenderTagProps
  import opened TemplateShapes
  import opened Members

  /** The renderer of `render.ts` and the older compiled one of `render.js`. */
  datatype Dialect = Ts | Js

  // ---------------------------------------------------------------------
  // Selecting the types of a section

  /** The visible types of one kind, in introspection order. */
  function OfKind(types: seq<TypeDef>, k: Kind): (r: seq<TypeDef>)
    ensures forall i :: 0 <= i < |r| ==> r[i] in types && Visible(r[i]) && r[i].kind == k
    ensures forall i :: 0 <= i < |types| && Visible(types[i]) && types[i].kind == k ==> types[i] in r
  {
    var visible := Filter(types, Visible);
    assert forall i :: 0 <= i < |types| && Visible(types[i]) ==> types[i] in visible;
    Filter(visible, HasKind(k))
  }

  /** The test of `type.kind === k`. */
  function HasKind(k: Kind): TypeDef -> bool {
    (t: TypeDef) => t.kind == k
  }

  /** The visible unions and interfaces, in introspection order. */
  function AbstractTypes(types: seq<TypeDef>): (r: seq<TypeDef>)
    ensures forall i :: 0 <= i < |r| ==> r[i] in types && Visible(r[i]) && IsAbstract(r[i])
    ensures forall i :: 0 <= i < |types| && Visible(types[i]) && IsAbstract(types[i]) ==> types[i] in r
  {
    var visible := Filter(types, Visible);
    assert forall i :: 0 <= i < |types| && Visible(types[i]) ==> types[i] in visible;
    Filter(visible, IsAbstract)
  }

  /** A section keeps the order and the multiplicity of its input: the
      types of a concatenation are those of each part, in turn. */
  lemma OfKindAppend(a: seq<TypeDef>, b: seq<TypeDef>, k: Kind)
    ensures OfKind(a + b, k) == OfKind(a, k) + OfKind(b, k)
  {
    FilterAppend(a, b, Visible);
    FilterAppend(Filter(a, Visible), Filter(b, Visible), HasKind(k));
  }

  /** One type is listed once when it is visible and of the kind, and not
      at all otherwise. */
  lemma OfKindOne(t: TypeDef, k: Kind)
    ensures OfKind([t], k) == if Visible(t) && t.kind == k then [t] else []
  {
    FilterOne(t, Visible);
    FilterOne(t, HasKind(k));
  }

  /** The same two facts for the unions and interfaces. */
  lemma AbstractTypesAppend(a: seq<TypeDef>, b: seq<TypeDef>)
    ensures AbstractTypes(a + b) == AbstractTypes(a) + AbstractTypes(b)
  {
    FilterAppend(a, b, Visible);
    FilterAppend(Filter(a, Visible), Filter(b, Visible), IsAbstract);
  }

  lemma AbstractTypesOne(t: TypeDef)
    ensures AbstractTypes([t]) == if Visible(t) && IsAbstract(t) then [t] else []
  {
    FilterOne(t, Visible);
    FilterOne(t, IsAbstract);
  }

  // ---------------------------------------------------------------------
  // Object types

  /** The `__typename` constant of an object type, as each renderer writes it. */
  function TypenameText(d: Dialect, forType: string): string {
    match d
    case Ts => "__typename: '" + forType + "';"
    case Js => "__typename: '" + forType + "'\n"
  }

  /** `renderTypename`: the constant, for a type that some visible union or
      interface lists among its possible types; nothing otherwise. */
  function RenderTypename(d: Dialect, forType: string, all: seq<TypeDef>): (r: string)
    ensures r != "" <==>
      exists u :: u in all && Visible(u) && IsAbstract(u) && forType in u.possibleTypes
    ensures r != "" ==> r == TypenameText(d, forType)
  {
    var abstractTypes := AbstractTypes(all);
    var usedBy := Filter(abstractTypes, (u: TypeDef) => forType in u.possibleTypes);
    assert forall u :: u in all && Visible(u) && IsAbstract(u) && forType in u.possibleTypes ==>
      u in abstractTypes && u in usedBy;
    if |usedBy| == 0 then "" else
      assert usedBy[0] in all;
      TypenameText(d, forType)
  }

  /** `renderExtends`: `extends A<Ctx>, B<Ctx> ` for the implemented
      interfaces in order, nothing for none. */
  function RenderExtends(t: TypeDef): (r: string)
    ensures r == "" <==> |t.interfaces| == 0
    ensures |t.interfaces| > 0 ==>
      StartsWith(r, "extends " + Generic(t.interfaces[0])) &&
      EndsWith(r, Generic(t.interfaces[|t.interfaces| - 1]) + " ")
  {
    if |t.interfaces| > 0 then
      var names := Map(t.interfaces, Generic);
      JoinEnds(names, ", ");
      Enclosed("extends ", Join(names, ", "), " ", names[0], names[|names| - 1]);
      "extends " + Join(names, ", ") + " "
    else ""
  }

  /** The clause names every interface, each with `<Ctx>`, in order: between
      `extends ` and the closing space, splitting at `, ` gives them back. */
  lemma ExtendsRoundTrip(t: TypeDef)
    requires |t.interfaces| > 0
    requires forall i :: 0 <= i < |t.interfaces| ==> IsName(t.interfaces[i])
    ensures var r := RenderExtends(t);
      |r| >= 9 && r[..8] == "extends " && r[|r| - 1] == ' ' &&
      Split(r[8..|r| - 1], ", ") == Map(t.interfaces, Generic)
  {
    var names := Map(t.interfaces, Generic);
    var body := Join(names, ", ");
    var r := RenderExtends(t);
    assert r == "extends " + body + " ";
    assert r[8..|r| - 1] == body;
    forall i | 0 <= i < |names|
      ensures ", "[0] !in names[i]
    {
      var n := t.interfaces[i];
      assert names[i] == n + "<Ctx>";
      assert forall j :: 0 <= j < |n| ==> NameChar(n[j]);
    }
    SplitJoin(names, ", ");
  }

  /** The fields of an object type or interface, one member per line. */
  function FieldsText(t: TypeDef): string {
    Join(Map(t.fields, (f: Field) => RenderMemberWithComment(f, t.name)), "\n")
  }

  /** The literals of the type template after its description line. */
  const TypeDefRestLits: seq<string> := ["\nexport interface ", "<Ctx> ", "{\n    ", "", "\n", "\n}\n"]

  const TypeDefLits: seq<string> := ["\n"] + TypeDefRestLits

  /** `renderTypeDef`. */
  function RenderTypeDef(d: Dialect, t: TypeDef, all: seq<TypeDef>): string {
    Source(TypeDefLits, [RenderComment(t.description), Val(t.name), Val(RenderExtends(t)),
                         Val(RenderTypename(d, t.name, all)), OmitNextNewline, Val(FieldsText(t))])
  }

  /** The head of an interface declaration up to its opening brace. */
  function Opening(n: string, e: string): string {
    "export interface " + n + "<Ctx> " + e + "{"
  }

  /** The type template up to the typename slot. */
  lemma TypeDefHead(n: string, e: string)
    requires SingleLine(n) && SingleLine(e)
    ensures Step(Step("\nexport interface ", Val(n), "<Ctx> "), Val(e), "{\n    ")
         == "\n" + Opening(n, e) + "\n" + Indent4
  {
    var a0, l1, l2 := "\nexport interface ", "<Ctx> ", "{\n    ";
    TwoSingleSteps(a0, n, l1, e, l2);
    InterfaceKeyword();
    Regroup7("\n", "export interface ", n, l1, e, "{", "\n" + Indent4);
    assert Opening(n, e) == "export interface " + n + l1 + e + "{";
  }

  lemma InterfaceKeyword()
    ensures "\nexport interface " == "\n" + "export interface "
    ensures "{\n    " == "{" + ("\n" + Indent4)
  {
  }

  lemma ClosingBrace()
    ensures "\n}\n" == "\n}" + "\n"
  {
  }

  lemma WrapFour(p: string, a: string, b: string, c: string, d: string, e: string)
    ensures p + a + b + c + (d + e) == p + (a + b + c + d) + e
  {
  }

  lemma WrapSix(p: string, a: string, b: string, c: string, d: string, f: string, g: string, e: string)
    ensures p + a + b + c + d + f + (g + e) == p + (a + b + c + d + f + g) + e
  {
  }

  lemma Regroup7(p: string, q: string, x: string, y: string, z: string, r: string, t: string)
    ensures (p + q) + x + y + z + (r + t) == p + (q + x + y + z + r) + t
  {
  }

  /** Two one-line values in a row are appended unchanged. */
  lemma TwoSingleSteps(a: string, n: string, l1: string, e: string, l2: string)
    requires SingleLine(n) && SingleLine(e)
    ensures Step(Step(a, Val(n), l1), Val(e), l2) == a + n + l1 + e + l2
  {
    StepSingleLine(a, n, l1);
    StepSingleLine(a + n + l1, e, l2);
  }

  /** The rest of the type template for a one-line typename: the marker
      removes the line break after it, so the first field continues the
      typename line and later fields are indented to the column after it. */
  lemma TypeDefTail(h: string, tn: string, f: string)
    requires SingleLine(tn)
    ensures Step(Step(Step(h + "\n" + Indent4, Val(tn), ""), OmitNextNewline, "\n"), Val(f), "\n}\n")
         == h + "\n" + (Indent4 + tn + Reindent(f, Pad(4 + |tn|))) + "\n}\n"
  {
    var a2 := h + "\n" + Indent4;
    var a3 := h + "\n" + (Indent4 + tn);
    assert Step(a2, Val(tn), "") == a3 by {
      StepSingleLine(a2, tn, "");
    }
    assert Step(a3, OmitNextNewline, "\n") == a3 by {
      MarkerDropsBlankLine(a3, 0, "");
      assert Blanks(0) + "\n" + "" == "\n";
    }
    assert Indent(a3) == 4 + |tn| by {
      IndentAfterNewline(h, Indent4 + tn);
    }
  }

  /** The marker before a literal that is a bare line break removes it. */
  lemma MarkerAtLineEnd(a: string)
    ensures Step(a, OmitNextNewline, "\n") == a
  {
    MarkerDropsBlankLine(a, 0, "");
    assert Blanks(0) + "\n" + "" == "\n";
  }

  /** A typename that ends in a line break leaves the next line indented
      by four spaces. */
  lemma OwnLineTypename(h: string, x: string)
    requires SingleLine(x)
    ensures Step(h + "\n" + Indent4, Val(x + "\n"), "") == h + "\n" + (Indent4 + x) + "\n" + Indent4
  {
    var r := Reindent(x + "\n", Indent4);
    IndentedAfterBrace(h, x);
    assert r == x + "\n" + Indent4 by {
      ReindentLine(x, "", Indent4);
      assert x + "\n" + "" == x + "\n";
    }
    Regroup5(h, "\n", Indent4, x, "\n", Indent4);
  }

  /** The fields after a line break and four spaces form an indented
      block. */
  lemma FieldsBlock(h: string, f: string)
    ensures Step(h + "\n" + Indent4, Val(f), "\n}\n") == h + "\n" + Block(Indent4, f) + "\n}\n"
  {
    var r := Reindent(f, Indent4);
    IndentedAfterBrace(h, f);
    RegroupSecond(h, "\n", Indent4, r, "\n}\n");
  }

  /** The rest of the type template when the typename ends in a line break:
      the fields start on a line of their own, four spaces in. */
  lemma TypeDefTailOwnLine(h: string, x: string, f: string)
    requires SingleLine(x)
    ensures Step(Step(Step(h + "\n" + Indent4, Val(x + "\n"), ""), OmitNextNewline, "\n"), Val(f), "\n}\n")
         == h + "\n" + (Indent4 + x) + "\n" + Block(Indent4, f) + "\n}\n"
  {
    var h3 := h + "\n" + (Indent4 + x);
    OwnLineTypename(h, x);
    MarkerAtLineEnd(h3 + "\n" + Indent4);
    FieldsBlock(h3, f);
  }

  /** The type template after its description slot, for a one-line
      typename. */
  lemma TypeDefRest(n: string, e: string, tn: string, f: string)
    requires SingleLine(n) && SingleLine(e) && SingleLine(tn)
    ensures Accumulate(TypeDefRestLits, [Val(n), Val(e), Val(tn), OmitNextNewline, Val(f)], 5)
         == "\n" + (Opening(n, e) + "\n" + (Indent4 + tn + Reindent(f, Pad(4 + |tn|))) + "\n}") + "\n"
  {
    var rest := TypeDefRestLits;
    calc {
      Accumulate(rest, [Val(n), Val(e), Val(tn), OmitNextNewline, Val(f)], 5);
    == { AccumulateFive(rest, [Val(n), Val(e), Val(tn), OmitNextNewline, Val(f)]); }
      Step(Step(Step(Step(Step("\nexport interface ", Val(n), "<Ctx> "), Val(e), "{\n    "),
        Val(tn), ""), OmitNextNewline, "\n"), Val(f), "\n}\n");
    == { TypeDefHead(n, e); }
      Step(Step(Step("\n" + Opening(n, e) + "\n" + Indent4, Val(tn), ""), OmitNextNewline, "\n"), Val(f), "\n}\n");
    == { TypeDefTail("\n" + Opening(n, e), tn, f); }
      "\n" + Opening(n, e) + "\n" + (Indent4 + tn + Reindent(f, Pad(4 + |tn|))) + "\n}\n";
    == { ClosingBrace(); WrapFour("\n", Opening(n, e), "\n", Indent4 + tn + Reindent(f, Pad(4 + |tn|)), "\n}", "\n"); }
      "\n" + (Opening(n, e) + "\n" + (Indent4 + tn + Reindent(f, Pad(4 + |tn|))) + "\n}") + "\n";
    }
  }

  /** The type template with the description slot `c`, for a one-line
      typename. */
  lemma TypeDefTemplate(c: Slot, n: string, e: string, tn: string, f: string)
    requires SingleLine(n) && SingleLine(e) && SingleLine(tn)
    ensures Source(TypeDefLits, [c, Val(n), Val(e), Val(tn), OmitNextNewline, Val(f)])
         == CommentPrefix(c) + (Opening(n, e) + "\n" + (Indent4 + tn + Reindent(f, Pad(4 + |tn|))) + "\n}")
  {
    var ts := [Val(n), Val(e), Val(tn), OmitNextNewline, Val(f)];
    TypeDefRest(n, e, tn, f);
    PrependSlot5(c, Val(n), Val(e), Val(tn), OmitNextNewline, Val(f));
    CommentedTemplate(c, TypeDefRestLits, ts, Opening(n, e) + "\n" + (Indent4 + tn + Reindent(f, Pad(4 + |tn|))) + "\n}");
  }

  /** The type template after its description slot, for a typename that
      ends in a line break. */
  lemma TypeDefRestOwnLine(n: string, e: string, x: string, f: string)
    requires SingleLine(n) && SingleLine(e) && SingleLine(x)
    ensures Accumulate(TypeDefRestLits, [Val(n), Val(e), Val(x + "\n"), OmitNextNewline, Val(f)], 5)
         == "\n" + (Opening(n, e) + "\n" + (Indent4 + x) + "\n" + Block(Indent4, f) + "\n}") + "\n"
  {
    var rest := TypeDefRestLits;
    calc {
      Accumulate(rest, [Val(n), Val(e), Val(x + "\n"), OmitNextNewline, Val(f)], 5);
    == { AccumulateFive(rest, [Val(n), Val(e), Val(x + "\n"), OmitNextNewline, Val(f)]); }
      Step(Step(Step(Step(Step("\nexport interface ", Val(n), "<Ctx> "), Val(e), "{\n    "),
        Val(x + "\n"), ""), OmitNextNewline, "\n"), Val(f), "\n}\n");
    == { TypeDefHead(n, e); }
      Step(Step(Step("\n" + Opening(n, e) + "\n" + Indent4, Val(x + "\n"), ""), OmitNextNewline, "\n"), Val(f), "\n}\n");
    == { TypeDefTailOwnLine("\n" + Opening(n, e), x, f); }
      "\n" + Opening(n, e) + "\n" + (Indent4 + x) + "\n" + Block(Indent4, f) + "\n}\n";
    == { ClosingBrace(); WrapSix("\n", Opening(n, e), "\n", Indent4 + x, "\n", Block(Indent4, f), "\n}", "\n"); }
      "\n" + (Opening(n, e) + "\n" + (Indent4 + x) + "\n" + Block(Indent4, f) + "\n}") + "\n";
    }
  }

  /** The type template with the description slot `c`, for a typename that
      ends in a line break. */
  lemma TypeDefTemplateOwnLine(c: Slot, n: string, e: string, x: string, f: string)
    requires SingleLine(n) && SingleLine(e) && SingleLine(x)
    ensures Source(TypeDefLits, [c, Val(n), Val(e), Val(x + "\n"), OmitNextNewline, Val(f)])
         == CommentPrefix(c) + (Opening(n, e) + "\n" + (Indent4 + x) + "\n" + Block(Indent4, f) + "\n}")
  {
    var ts := [Val(n), Val(e), Val(x + "\n"), OmitNextNewline, Val(f)];
    TypeDefRestOwnLine(n, e, x, f);
    PrependSlot5(c, Val(n), Val(e), Val(x + "\n"), OmitNextNewline, Val(f));
    CommentedTemplate(c, TypeDefRestLits, ts, Opening(n, e) + "\n" + (Indent4 + x) + "\n" + Block(Indent4, f) + "\n}");
  }

  /** Names that render on one line: the type's own and its interfaces'. */
  predicate OneLineNames(t: TypeDef) {
    SingleLine(t.name) && AllSingleLine(t.interfaces)
  }

  lemma ExtendsSingleLine(t: TypeDef)
    requires AllSingleLine(t.interfaces)
    ensures SingleLine(RenderExtends(t))
  {
    if |t.interfaces| > 0 {
      var names := Map(t.interfaces, Generic);
      assert AllSingleLine(names) by {
        forall i | 0 <= i < |names|
          ensures SingleLine(names[i])
        {
          assert names[i] == t.interfaces[i] + "<Ctx>";
        }
      }
      JoinSingleLine(names, ", ");
    }
  }

  /** An object type that no union or interface lists: the comment, the
      head, and every field line four spaces in. Both renderers agree. */
  lemma TypeDefWithoutTypename(d: Dialect, t: TypeDef, all: seq<TypeDef>)
    requires OneLineNames(t)
    requires !exists u :: u in all && Visible(u) && IsAbstract(u) && t.name in u.possibleTypes
    ensures RenderTypeDef(d, t, all) ==
      CommentPrefix(RenderComment(t.description)) +
      (Opening(t.name, RenderExtends(t)) + "\n" + Block(Indent4, FieldsText(t)) + "\n}")
  {
    var f := FieldsText(t);
    ExtendsSingleLine(t);
    assert RenderTypename(d, t.name, all) == "";
    TypeDefTemplate(RenderComment(t.description), t.name, RenderExtends(t), "", f);
    assert Indent4 + "" + Reindent(f, Pad(4 + |""|)) == Block(Indent4, f) by {
      IndentedAfterBrace("", f);
      assert Indent4 + "" == Indent4;
    }
  }

  /** `render.ts` writes the typename on the line after the brace and
      continues that line with the first field; the lines of the other
      fields are padded to the column after the typename (at most 87). */
  lemma TypeDefWithTypenameTs(t: TypeDef, all: seq<TypeDef>)
    requires OneLineNames(t)
    requires exists u :: u in all && Visible(u) && IsAbstract(u) && t.name in u.possibleTypes
    ensures RenderTypeDef(Ts, t, all) ==
      CommentPrefix(RenderComment(t.description)) +
      (Opening(t.name, RenderExtends(t)) + "\n" +
       (Indent4 + TypenameText(Ts, t.name) + Reindent(FieldsText(t), Pad(4 + |TypenameText(Ts, t.name)|))) + "\n}")
  {
    ExtendsSingleLine(t);
    TypeDefTemplate(RenderComment(t.description), t.name, RenderExtends(t), TypenameText(Ts, t.name), FieldsText(t));
  }

  /** `render.js` writes the typename on a line of its own and every field
      line four spaces in. */
  lemma TypeDefWithTypenameJs(t: TypeDef, all: seq<TypeDef>)
    requires OneLineNames(t)
    requires exists u :: u in all && Visible(u) && IsAbstract(u) && t.name in u.possibleTypes
    ensures RenderTypeDef(Js, t, all) ==
      CommentPrefix(RenderComment(t.description)) +
      (Opening(t.name, RenderExtends(t)) + "\n" + (Indent4 + ("__typename: '" + t.name + "'")) + "\n" +
       Block(Indent4, FieldsText(t)) + "\n}")
  {
    ExtendsSingleLine(t);
    var x := "__typename: '" + t.name + "'";
    assert TypenameText(Js, t.name) == x + "\n";
    TypeDefTemplateOwnLine(RenderComment(t.description), t.name, RenderExtends(t), x, FieldsText(t));
  }

  /** `renderTypes`: the visible object types, separated by a blank line. */
  function RenderTypes(d: Dialect, types: seq<TypeDef>): string {
    Join(Map(OfKind(types, Object), (t: TypeDef) => RenderTypeDef(d, t, types)), "\n\n")
  }

  // ---------------------------------------------------------------------
  // Enums

  const EnumEntryLits: seq<string> := ["\n", ": '", "',\n"]

  /** `renderEnumValueType`: `NAME: 'NAME',`. */
  function RenderEnumValueType(v: EnumValue): (r: string)
    ensures SingleLine(v.name) ==> r == v.name + ": '" + v.name + "',"
  {
    EnumEntryTemplate(v.name);
    Source(EnumEntryLits, [Val(v.name), Val(v.name)])
  }

  lemma EnumEntryTemplate(n: string)
    ensures SingleLine(n) ==> Source(EnumEntryLits, [Val(n), Val(n)]) == n + ": '" + n + "',"
  {
    if SingleLine(n) {
      var m := n + ": '" + n + "',";
      calc {
        Source(EnumEntryLits, [Val(n), Val(n)]);
      == { AccumulateTwo(EnumEntryLits, [Val(n), Val(n)]); }
        Trim(Step(Step("\n", Val(n), ": '"), Val(n), "',\n"));
      == { TwoSingleSteps("\n", n, ": '", n, "',\n"); }
        Trim("\n" + n + ": '" + n + "',\n");
      == { EntryEnd(); WrappedLine(n, ": '", n, "',"); }
        Trim("\n" + m + "\n");
      == { TrimWrapped(m); }
        m;
      }
    }
  }

  lemma EntryEnd()
    ensures "',\n" == "'," + "\n"
  {
  }

  lemma WrappedLine(a: string, b: string, c: string, d: string)
    ensures "\n" + a + b + c + (d + "\n") == "\n" + (a + b + c + d) + "\n"
  {
  }

  /** `renderEnumValue`: the same entry below the value's comment. */
  function RenderEnumValue(v: EnumValue): (r: string)
    ensures r == CommentPrefix(RenderComment(v.description)) + RenderEnumValueType(v)
  {
    EnumValueTemplate(RenderComment(v.description), v.name);
    Source(["\n"] + EnumEntryLits, [RenderComment(v.description), Val(v.name), Val(v.name)])
  }

  lemma EnumValueTemplate(c: Slot, n: string)
    ensures Source(["\n"] + EnumEntryLits, [c, Val(n), Val(n)])
         == CommentPrefix(c) + Source(EnumEntryLits, [Val(n), Val(n)])
  {
    var ts := [Val(n), Val(n)];
    ConsShifted("\n", EnumEntryLits);
    ConsShifted(c, ts);
    PrependSlot2(c, Val(n), Val(n));
    LiteralAfterValueIsKept(EnumEntryLits, ts, 2);
    CommentedSource(["\n"] + EnumEntryLits, [c] + ts, EnumEntryLits, ts);
  }

  /** `'A' | 'B'`: the value names quoted, in order. */
  function EnumAlias(values: seq<EnumValue>): string {
    Join(Map(values, (v: EnumValue) => "'" + v.name + "'"), " | ")
  }

  function EnumTypes(values: seq<EnumValue>): string {
    Join(Map(values, RenderEnumValueType), " ")
  }

  function EnumValues(values: seq<EnumValue>): string {
    Join(Map(values, RenderEnumValue), " ")
  }

  /** The literals of the enum template after its description line. */
  const EnumRestLits: seq<string> := ["\nexport type ", " = ", "\nexport const ", ": { ", " } = { ", "}"]

  const EnumLits: seq<string> := ["\n"] + EnumRestLits

  /** `renderEnum`: a string-literal union type and a constant object with
      the same name. */
  function RenderEnum(t: TypeDef): string {
    Source(EnumLits, [RenderComment(t.description), Val(t.name), Val(EnumAlias(t.enumValues)),
                      Val(t.name), Val(EnumTypes(t.enumValues)), Val(EnumValues(t.enumValues))])
  }

  /** The first line of an enum: the type alias. */
  function AliasLine(n: string, q: string): string {
    "export type " + n + " = " + q
  }

  /** The second line of an enum up to its value entries. */
  function ConstHead(n: string, vt: string): string {
    "export const " + n + ": { " + vt + " } = { "
  }

  /** Four one-line values in a row are appended unchanged. */
  lemma FourSingleSteps(a: string, v1: string, l1: string, v2: string, l2: string,
                        v3: string, l3: string, v4: string, l4: string)
    requires SingleLine(v1) && SingleLine(v2) && SingleLine(v3) && SingleLine(v4)
    ensures Step(Step(Step(Step(a, Val(v1), l1), Val(v2), l2), Val(v3), l3), Val(v4), l4)
         == a + v1 + l1 + v2 + l2 + v3 + l3 + v4 + l4
  {
    TwoSingleSteps(a, v1, l1, v2, l2);
    TwoSingleSteps(a + v1 + l1 + v2 + l2, v3, l3, v4, l4);
  }

  lemma EnumLines(n: string, q: string, vt: string)
    ensures "\nexport type " + n + " = " + q + "\nexport const " + n + ": { " + vt + " } = { "
         == "\n" + AliasLine(n, q) + "\n" + ConstHead(n, vt)
  {
    EnumKeywords();
    TwoLines("export type ", n, " = ", q, "export const ", ": { ", vt, " } = { ");
  }

  lemma EnumKeywords()
    ensures "\nexport type " == "\n" + "export type "
    ensures "\nexport const " == "\n" + "export const "
  {
  }

  lemma TwoLines(a: string, n: string, e: string, q: string, b: string, c: string, vt: string, z: string)
    ensures ("\n" + a) + n + e + q + ("\n" + b) + n + c + vt + z
         == "\n" + (a + n + e + q) + "\n" + (b + n + c + vt + z)
  {
  }

  lemma EnumHead(n: string, q: string, vt: string)
    requires SingleLine(n) && SingleLine(q) && SingleLine(vt)
    ensures Step(Step(Step(Step("\nexport type ", Val(n), " = "), Val(q), "\nexport const "),
              Val(n), ": { "), Val(vt), " } = { ")
         == "\n" + AliasLine(n, q) + "\n" + ConstHead(n, vt)
  {
    FourSingleSteps("\nexport type ", n, " = ", q, "\nexport const ", n, ": { ", vt, " } = { ");
    EnumLines(n, q, vt);
  }

  /** The value entries continue the constant's line. */
  lemma LastValueStep(first: string, head: string, vv: string)
    requires SingleLine(head)
    ensures Step("\n" + first + "\n" + head, Val(vv), "}")
         == "\n" + (first + "\n" + head + Reindent(vv, Pad(|head|)) + "}")
  {
    IndentAfterNewline("\n" + first, head);
  }

  /** The enum template after its description slot. */
  lemma EnumRest(n: string, q: string, vt: string, vv: string)
    requires SingleLine(n) && SingleLine(q) && SingleLine(vt)
    ensures Accumulate(EnumRestLits, [Val(n), Val(q), Val(n), Val(vt), Val(vv)], 5)
         == "\n" + (AliasLine(n, q) + "\n" + ConstHead(n, vt) + Reindent(vv, Pad(|ConstHead(n, vt)|)) + "}")
  {
    var first, head := AliasLine(n, q), ConstHead(n, vt);
    var rest := EnumRestLits;
    calc {
      Accumulate(rest, [Val(n), Val(q), Val(n), Val(vt), Val(vv)], 5);
    == { AccumulateFive(rest, [Val(n), Val(q), Val(n), Val(vt), Val(vv)]); }
      Step(Step(Step(Step(Step("\nexport type ", Val(n), " = "), Val(q), "\nexport const "),
        Val(n), ": { "), Val(vt), " } = { "), Val(vv), "}");
    == { EnumHead(n, q, vt); }
      Step("\n" + first + "\n" + head, Val(vv), "}");
    == { LastValueStep(first, head, vv); }
      "\n" + (first + "\n" + head + Reindent(vv, Pad(|head|)) + "}");
    }
  }

  /** The enum template: two declarations on two lines; the value entries
      continue the second line, and the lines of their comments are padded
      to the column where the entries start. */
  lemma EnumTemplate(c: Slot, n: string, q: string, vt: string, vv: string)
    requires SingleLine(n) && SingleLine(q) && SingleLine(vt)
    ensures Source(EnumLits, [c, Val(n), Val(q), Val(n), Val(vt), Val(vv)])
         == CommentPrefix(c) +
            (AliasLine(n, q) + "\n" + ConstHead(n, vt) + Reindent(vv, Pad(|ConstHead(n, vt)|)) + "}")
  {
    var ts := [Val(n), Val(q), Val(n), Val(vt), Val(vv)];
    EnumRest(n, q, vt, vv);
    PrependSlot5(c, Val(n), Val(q), Val(n), Val(vt), Val(vv));
    CommentedOpenTemplate(c, EnumRestLits, ts, AliasLine(n, q) + "\n" + ConstHead(n, vt) + Reindent(vv, Pad(|ConstHead(n, vt)|)) + "}");
  }

  /** Enum entries are one line for one-line value names. */
  lemma EnumPartsSingleLine(values: seq<EnumValue>)
    requires forall i :: 0 <= i < |values| ==> SingleLine(values[i].name)
    ensures SingleLine(EnumAlias(values)) && SingleLine(EnumTypes(values))
  {
    var quoted := Map(values, (v: EnumValue) => "'" + v.name + "'");
    var types := Map(values, RenderEnumValueType);
    assert AllSingleLine(quoted) by {
      forall i | 0 <= i < |quoted|
        ensures SingleLine(quoted[i])
      {
        assert quoted[i] == "'" + values[i].name + "'";
      }
    }
    assert AllSingleLine(types) by {
      forall i | 0 <= i < |types|
        ensures SingleLine(types[i])
      {
        assert types[i] == values[i].name + ": '" + values[i].name + "',";
      }
    }
    JoinSingleLine(quoted, " | ");
    JoinSingleLine(types, " ");
  }

  /** An enum: its comment, the alias of the quoted value names, and the
      constant with one entry per value. */
  lemma EnumShape(t: TypeDef)
    requires SingleLine(t.name)
    requires forall i :: 0 <= i < |t.enumValues| ==> SingleLine(t.enumValues[i].name)
    ensures RenderEnum(t) ==
      CommentPrefix(RenderComment(t.description)) +
      (AliasLine(t.name, EnumAlias(t.enumValues)) + "\n" + ConstHead(t.name, EnumTypes(t.enumValues)) +
       Reindent(EnumValues(t.enumValues), Pad(|ConstHead(t.name, EnumTypes(t.enumValues))|)) + "}")
  {
    EnumPartsSingleLine(t.enumValues);
    EnumTemplate(RenderComment(t.description), t.name, EnumAlias(t.enumValues),
                 EnumTypes(t.enumValues), EnumValues(t.enumValues));
  }

  /** Enum values without descriptions render on one line each, and the
      constant's value entries then repeat its type entries. */
  lemma PlainEnumValues(values: seq<EnumValue>)
    requires forall i :: 0 <= i < |values| ==> SingleLine(values[i].name) && values[i].description == ""
    ensures SingleLine(EnumValues(values))
    ensures EnumValues(values) == EnumTypes(values)
  {
    var entries := Map(values, RenderEnumValue);
    var types := Map(values, RenderEnumValueType);
    forall i | 0 <= i < |values|
      ensures entries[i] == types[i] && SingleLine(types[i])
    {
      PlainEnumValue(values[i]);
    }
    assert entries == types;
    JoinSingleLine(types, " ");
  }

  /** A value without a description renders as its entry alone, on one
      line. */
  lemma PlainEnumValue(v: EnumValue)
    requires SingleLine(v.name) && v.description == ""
    ensures RenderEnumValue(v) == RenderEnumValueType(v)
    ensures SingleLine(RenderEnumValueType(v))
  {
    assert RenderComment(v.description) == OmitNextNewline;
    assert CommentPrefix(OmitNextNewline) == "";
    assert SingleLine(": '") && SingleLine("',");
    FourSingleLine(v.name, ": '", v.name, "',");
  }

  /** Between two enums: `;` in `render.ts`, a line break in `render.js`. */
  function EnumSeparator(d: Dialect): string {
    match d
    case Ts => ";"
    case Js => "\n"
  }

  /** `renderEnums`. */
  function RenderEnums(d: Dialect, types: seq<TypeDef>): string {
    Join(Map(OfKind(types, Enum), RenderEnum), EnumSeparator(d))
  }

  // ---------------------------------------------------------------------
  // Unions, interfaces and input objects

  /** `A<Ctx> | B<Ctx>`: the possible types, in order. */
  function UnionValues(t: TypeDef): string {
    Join(Map(t.possibleTypes, Generic), " | ")
  }

  /** The literals of the union template after its description line. */
  const UnionRestLits: seq<string> := ["\nexport type ", "<Ctx> = ", "\n\n"]

  const UnionLits: seq<string> := ["\n"] + UnionRestLits

  /** `renderUnion`. */
  function RenderUnion(t: TypeDef): string {
    Source(UnionLits, [RenderComment(t.description), Val(t.name), Val(UnionValues(t))])
  }

  /** The union template: one alias line; the final trim takes one of the
      two closing line breaks. */
  lemma UnionTemplate(c: Slot, n: string, v: string)
    requires SingleLine(n) && SingleLine(v)
    ensures Source(UnionLits, [c, Val(n), Val(v)])
         == CommentPrefix(c) + ("export type " + Generic(n) + " = " + v + "\n")
  {
    var ts := [Val(n), Val(v)];
    var m := "export type " + Generic(n) + " = " + v + "\n";
    calc {
      Accumulate(UnionRestLits, ts, 2);
    == { AccumulateTwo(UnionRestLits, ts); }
      Step(Step("\nexport type ", Val(n), "<Ctx> = "), Val(v), "\n\n");
    == { TwoSingleSteps("\nexport type ", n, "<Ctx> = ", v, "\n\n"); }
      "\nexport type " + n + "<Ctx> = " + v + "\n\n";
    == { UnionKeywords(); UnionLine("export type ", n, "<Ctx>", " = ", v, "\n"); }
      "\n" + m + "\n";
    }
    PrependSlot2(c, Val(n), Val(v));
    CommentedTemplate(c, UnionRestLits, ts, m);
  }

  lemma UnionKeywords()
    ensures "\nexport type " == "\n" + "export type "
    ensures "<Ctx> = " == "<Ctx>" + " = "
    ensures "\n\n" == "\n" + "\n"
  {
  }

  lemma UnionLine(a: string, n: string, g: string, e: string, v: string, z: string)
    ensures ("\n" + a) + n + (g + e) + v + (z + z) == "\n" + (a + (n + g) + e + v + z) + z
  {
  }

  /** A union is one type alias line after its comment. */
  lemma UnionShape(t: TypeDef)
    requires SingleLine(t.name) && AllSingleLine(t.possibleTypes)
    ensures RenderUnion(t) ==
      CommentPrefix(RenderComment(t.description)) + ("export type " + Generic(t.name) + " = " + UnionValues(t) + "\n")
  {
    var names := Map(t.possibleTypes, Generic);
    assert AllSingleLine(names) by {
      forall i | 0 <= i < |names|
        ensures SingleLine(names[i])
      {
        assert names[i] == t.possibleTypes[i] + "<Ctx>";
      }
    }
    JoinSingleLine(names, " | ");
    UnionTemplate(RenderComment(t.description), t.name, UnionValues(t));
  }

  /** `renderUnions`. */
  function RenderUnions(types: seq<TypeDef>): string {
    Join(Map(OfKind(types, Union), RenderUnion), "\n")
  }

  /** The template of interfaces and input objects; `h` is what stands
      between the name and the brace. */
  function BracedLits(h: string): seq<string> {
    ["\n"] + BracedRestLits(h)
  }

  /** Its literals after the description line. */
  function BracedRestLits(h: string): seq<string> {
    ["\nexport interface ", h + "{\n    ", "\n}\n"]
  }

  /** `export interface N<h>{`. */
  function BracedHead(n: string, h: string): string {
    "export interface " + n + h + "{"
  }

  lemma BracedHeadStep(n: string, h: string)
    requires SingleLine(n)
    ensures Step("\nexport interface ", Val(n), h + "{\n    ") == "\n" + BracedHead(n, h) + "\n" + Indent4
  {
    StepSingleLine("\nexport interface ", n, h + "{\n    ");
    InterfaceKeyword();
    BracedRegroup("\n", "export interface ", n, h, "{", "\n", Indent4);
  }

  lemma BracedRegroup(p: string, q: string, n: string, h: string, r: string, s: string, t: string)
    ensures (p + q) + n + (h + (r + (s + t))) == p + (q + n + h + r) + s + t
  {
  }

  /** The braced template: the head line, then every line of the members
      four spaces in, then the closing brace. */
  lemma BracedTemplate(c: Slot, n: string, h: string, f: string)
    requires SingleLine(n) && SingleLine(h)
    ensures Source(BracedLits(h), [c, Val(n), Val(f)])
         == CommentPrefix(c) + (BracedHead(n, h) + "\n" + Block(Indent4, f) + "\n}")
  {
    var ts := [Val(n), Val(f)];
    var head := BracedHead(n, h);
    var a1 := "\n" + head + "\n" + Indent4;
    var m := head + "\n" + Block(Indent4, f) + "\n}";
    calc {
      Accumulate(BracedRestLits(h), ts, 2);
    == { AccumulateTwo(BracedRestLits(h), ts); }
      Step(Step("\nexport interface ", Val(n), h + "{\n    "), Val(f), "\n}\n");
    == { BracedHeadStep(n, h); }
      Step(a1, Val(f), "\n}\n");
    == { IndentedAfterBrace("\n" + head, f); }
      "\n" + m + "\n";
    }
    PrependSlot2(c, Val(n), Val(f));
    CommentedTemplate(c, BracedRestLits(h), ts, m);
  }

  /** `renderInterface`. */
  function RenderInterface(t: TypeDef): (r: string)
    ensures SingleLine(t.name) ==>
      r == CommentPrefix(RenderComment(t.description)) +
           (BracedHead(t.name, "<Ctx> ") + "\n" + Block(Indent4, FieldsText(t)) + "\n}")
  {
    var lits := BracedLits("<Ctx> ");
    if SingleLine(t.name) then
      BracedTemplate(RenderComment(t.description), t.name, "<Ctx> ", FieldsText(t));
      Source(lits, [RenderComment(t.description), Val(t.name), Val(FieldsText(t))])
    else
      Source(lits, [RenderComment(t.description), Val(t.name), Val(FieldsText(t))])
  }

  /** `renderInterfaces`. */
  function RenderInterfaces(types: seq<TypeDef>): string {
    Join(Map(OfKind(types, Interface), RenderInterface), "\n")
  }

  /** The input fields, one member per line. */
  function InputFieldsText(t: TypeDef): string {
    Join(Map(t.inputFields, RenderInputMemberWithComment), "\n")
  }

  /** `renderInputObject`: like an interface, without the context parameter. */
  function RenderInputObject(t: TypeDef): (r: string)
    ensures SingleLine(t.name) ==>
      r == CommentPrefix(RenderComment(t.description)) +
           (BracedHead(t.name, " ") + "\n" + Block(Indent4, InputFieldsText(t)) + "\n}")
  {
    var lits := BracedLits(" ");
    if SingleLine(t.name) then
      BracedTemplate(RenderComment(t.description), t.name, " ", InputFieldsText(t));
      Source(lits, [RenderComment(t.description), Val(t.name), Val(InputFieldsText(t))])
    else
      Source(lits, [RenderComment(t.description), Val(t.name), Val(InputFieldsText(t))])
  }

  /** `renderInputObjects`. */
  function RenderInputObjects(types: seq<TypeDef>): string {
    Join(Map(OfKind(types, InputObject), RenderInputObject), "\n")
  }

  // ---------------------------------------------------------------------
  // The order of the sections

  /** A section that renders each selected type on its own and joins the
      results: a concatenation renders as its parts, one separator between. */
  lemma SectionAppend(a: seq<TypeDef>, b: seq<TypeDef>, k: Kind, f: TypeDef -> string, sep: string)
    requires |OfKind(a, k)| > 0 && |OfKind(b, k)| > 0
    ensures Join(Map(OfKind(a + b, k), f), sep)
         == Join(Map(OfKind(a, k), f), sep) + sep + Join(Map(OfKind(b, k), f), sep)
  {
    OfKindAppend(a, b, k);
    MapAppend(OfKind(a, k), OfKind(b, k), f);
    JoinAppend(Map(OfKind(a, k), f), Map(OfKind(b, k), f), sep);
  }

  /** A section of one type: its rendering when it is visible and of the
      kind, nothing otherwise. */
  lemma SectionOne(t: TypeDef, k: Kind, f: TypeDef -> string, sep: string)
    ensures Join(Map(OfKind([t], k), f), sep) == if Visible(t) && t.kind == k then f(t) else ""
  {
    OfKindOne(t, k);
    if Visible(t) && t.kind == k {
      assert Map([t], f) == [f(t)];
    }
  }

  /** `renderEnums`: the enums in input order, each once, joined by `;` in
      `render.ts` and by a line break in `render.js`. */
  lemma EnumsAppend(d: Dialect, a: seq<TypeDef>, b: seq<TypeDef>)
    requires |OfKind(a, Enum)| > 0 && |OfKind(b, Enum)| > 0
    ensures RenderEnums(d, a + b) == RenderEnums(d, a) + EnumSeparator(d) + RenderEnums(d, b)
  {
    SectionAppend(a, b, Enum, RenderEnum, EnumSeparator(d));
  }

  lemma EnumsOne(d: Dialect, t: TypeDef)
    ensures RenderEnums(d, [t]) == if Visible(t) && t.kind == Enum then RenderEnum(t) else ""
  {
    SectionOne(t, Enum, RenderEnum, EnumSeparator(d));
  }

  /** `renderUnions`: the unions in input order, each once, one per line. */
  lemma UnionsAppend(a: seq<TypeDef>, b: seq<TypeDef>)
    requires |OfKind(a, Union)| > 0 && |OfKind(b, Union)| > 0
    ensures RenderUnions(a + b) == RenderUnions(a) + "\n" + RenderUnions(b)
  {
    SectionAppend(a, b, Union, RenderUnion, "\n");
  }

  lemma UnionsOne(t: TypeDef)
    ensures RenderUnions([t]) == if Visible(t) && t.kind == Union then RenderUnion(t) else ""
  {
    SectionOne(t, Union, RenderUnion, "\n");
  }

  /** `renderInterfaces`: the interfaces in input order, each once. */
  lemma InterfacesAppend(a: seq<TypeDef>, b: seq<TypeDef>)
    requires |OfKind(a, Interface)| > 0 && |OfKind(b, Interface)| > 0
    ensures RenderInterfaces(a + b) == RenderInterfaces(a) + "\n" + RenderInterfaces(b)
  {
    SectionAppend(a, b, Interface, RenderInterface, "\n");
  }

  lemma InterfacesOne(t: TypeDef)
    ensures RenderInterfaces([t]) == if Visible(t) && t.kind == Interface then RenderInterface(t) else ""
  {
    SectionOne(t, Interface, RenderInterface, "\n");
  }

  /** `renderInputObjects`: the input objects in input order, each once. */
  lemma InputObjectsAppend(a: seq<TypeDef>, b: seq<TypeDef>)
    requires |OfKind(a, InputObject)| > 0 && |OfKind(b, InputObject)| > 0
    ensures RenderInputObjects(a + b) == RenderInputObjects(a) + "\n" + RenderInputObjects(b)
  {
    SectionAppend(a, b, InputObject, RenderInputObject, "\n");
  }

  lemma InputObjectsOne(t: TypeDef)
    ensures RenderInputObjects([t]) == if Visible(t) && t.kind == InputObject then RenderInputObject(t) else ""
  {
    SectionOne(t, InputObject, RenderInputObject, "\n");
  }

  /** `renderTypes`: every visible object type once, in input order, each
      rendered against the whole type list. */
  lemma TypesOne(d: Dialect, t: TypeDef)
    ensures RenderTypes(d, [t]) == if Visible(t) && t.kind == Object then RenderTypeDef(d, t, [t]) else ""
  {
    OfKindOne(t, Object);
    if Visible(t) && t.kind == Object {
      assert Map([t], (u: TypeDef) => RenderTypeDef(d, u, [t])) == [RenderTypeDef(d, t, [t])];
    }
  }

  // ---------------------------------------------------------------------
  // Default resolvers

  /** What follows the type name in a resolver entry. */
  const ResolverBody := ": {\n        __resolveType(obj) {\n            return obj.__typename\n        }\n    }"

  /** `renderResolver`: an entry four spaces in whose `__resolveType`
      returns the value's `__typename`. */
  function RenderResolver(name: string): (r: string)
    ensures SingleLine(name) ==> r == Indent4 + name + ResolverBody
  {
    ResolverTemplate(name);
    Source(["\n    ", ResolverBody], [Val(name)])
  }

  lemma ResolverTemplate(name: string)
    ensures SingleLine(name) ==> Source(["\n    ", ResolverBody], [Val(name)]) == Indent4 + name + ResolverBody
  {
    if SingleLine(name) {
      assert "\n    " == "\n" + Indent4;
      assert ResolverBody[|ResolverBody| - 1] == '}';
      OpenTemplate(Indent4, name, ResolverBody);
    }
  }

  /** The resolver entries of the visible unions and interfaces, in order. */
  function Resolvers(types: seq<TypeDef>): string {
    Join(Map(AbstractTypes(types), (t: TypeDef) => RenderResolver(t.name)), ",\n")
  }

  /** The entries of a concatenation are those of each part, one separator
      between them. */
  lemma ResolversAppend(a: seq<TypeDef>, b: seq<TypeDef>)
    requires |AbstractTypes(a)| > 0 && |AbstractTypes(b)| > 0
    ensures Resolvers(a + b) == Resolvers(a) + ",\n" + Resolvers(b)
  {
    var entry := (t: TypeDef) => RenderResolver(t.name);
    AbstractTypesAppend(a, b);
    MapAppend(AbstractTypes(a), AbstractTypes(b), entry);
    JoinAppend(Map(AbstractTypes(a), entry), Map(AbstractTypes(b), entry), ",\n");
  }

  /** A visible union or interface gets exactly one entry; any other type
      gets none. */
  lemma ResolversOne(t: TypeDef)
    ensures Resolvers([t]) == if Visible(t) && IsAbstract(t) then RenderResolver(t.name) else ""
  {
    AbstractTypesOne(t);
  }

  /** The line that opens the exported constant of default resolvers. */
  const ResolversHead := "\nexport const defaultResolvers = {\n"

  /** `renderDefaultResolvers`: the entries inside one exported constant.
      The template starts with two line breaks, of which the trim takes one:
      its first literal is a line break followed by `ResolversHead`. */
  function RenderDefaultResolvers(types: seq<TypeDef>): (r: string)
    ensures r == ResolversHead + Resolvers(types) + "\n};"
  {
    DefaultResolversTemplate(Resolvers(types));
    Source(["\n" + ResolversHead, "\n};"], [Val(Resolvers(types))])
  }

  lemma DefaultResolversTemplate(body: string)
    ensures Source(["\n" + ResolversHead, "\n};"], [Val(body)]) == ResolversHead + body + "\n};"
  {
    assert ResolversHead[|ResolversHead| - 1] == '\n';
    LineStartOpenTemplate(ResolversHead, body, "\n};");
  }
}
