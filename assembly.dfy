/** `render`: the whole declaration file.

    The namespace template opens with the field type every resolver map is
    built from, then holds the seven sections at the start of a line each:
    object types, argument interfaces, input objects, enums, unions,
    interfaces and the default resolvers. Blank lines are cleared from the
    composed text and the result is wrapped in a header that disables the
    linter and imports `GraphQLResolveInfo`. */
module Assembly {
  import opened Text
  import opened Schema
  import opened RenderTag
  import opened RenderTagProps
  import opened BlankLines
  import opened Declarations
  import opened Arguments

  /** The `GraphqlField` type of `render.ts`, as indented in its template. */
  const TsFieldType := @"      type ID = string;
      export type GraphqlField<Source, Args, Result, Ctx> =
      | Result
      | Promise<Result>
      | ((
          source: Source,
          args: Args,
          context: Ctx,
          info: GraphQLResolveInfo
        ) => Result | Promise<Result>)"

  /** The `GraphqlField` type of `render.js`. */
  const JsFieldType := @"type ID = string;
export type GraphqlField<Source, Args, Result, Ctx> =
  Result |
  Promise<Result> |
  (
    ( source:Source,
      args:Args,
      context:Ctx,
      info:GraphQLResolveInfo
    ) => Result | Promise<Result>
  )"

  function FieldType(d: Dialect): string {
    match d
    case Ts => TsFieldType
    case Js => JsFieldType
  }

  /** The first literal of the namespace template: a line break, the field
      type, and a blank line before the first section. */
  function Preamble(d: Dialect): string {
    "\n" + FieldType(d) + "\n\n"
  }

  /** The seven sections, in the order the namespace template holds them. */
  function Sections(d: Dialect, s: IntrospectionSchema): (r: seq<string>)
    ensures |r| == 7
  {
    [RenderTypes(d, s.types),
     RenderArguments(d, s.types, ExtractRootTypes(s)),
     RenderInputObjects(s.types),
     RenderEnums(d, s.types),
     RenderUnions(s.types),
     RenderInterfaces(s.types),
     RenderDefaultResolvers(s.types)]
  }

  function NamespaceLits(d: Dialect): (r: seq<string>)
    ensures |r| == 8
  {
    [Preamble(d), "\n", "\n", "\n", "\n", "\n", "\n", "\n"]
  }

  function NamespaceSlots(d: Dialect, s: IntrospectionSchema): (r: seq<Slot>)
    ensures |r| == 7
  {
    Map(Sections(d, s), (t: string) => Val(t))
  }

  /** The `namespace` constant: the template composed by `source`. */
  function Namespace(d: Dialect, s: IntrospectionSchema): string {
    Source(NamespaceLits(d), NamespaceSlots(d, s))
  }

  /** A template whose literals after the first are single line breaks
      concatenates its values one per line. */
  lemma {:induction false} InterleaveLines(lits: seq<string>, slots: seq<Slot>, texts: seq<string>, k: nat)
    requires WellFormed(lits, slots) && |texts| == |slots| && 1 <= k <= |slots|
    requires forall i :: 1 <= i < |lits| ==> lits[i] == "\n"
    requires forall i :: 0 <= i < |slots| ==> slots[i] == Val(texts[i])
    ensures Interleave(lits, slots, k) == lits[0] + Join(texts[..k], "\n") + "\n"
  {
    if k == 1 {
      assert texts[..1] == [texts[0]];
    } else {
      InterleaveLines(lits, slots, texts, k - 1);
      var prev, t := texts[..k - 1], texts[k - 1];
      assert prev + [t] == texts[..k];
      JoinSnoc(prev, t, "\n");
      assert SlotText(slots[k - 1]) == t && lits[k] == "\n";
      calc {
        Interleave(lits, slots, k);
        Interleave(lits, slots, k - 1) + t + "\n";
        lits[0] + Join(prev, "\n") + "\n" + t + "\n";
        { RegroupMiddle(lits[0], Join(prev, "\n"), "\n", t, "\n"); }
        lits[0] + (Join(prev, "\n") + "\n" + t) + "\n";
      }
    }
  }

  /** The namespace template composed over any field type and sections. */
  lemma NamespaceShape(f: string, texts: seq<string>)
    requires |texts| == 7
    ensures Source(["\n" + f + "\n\n", "\n", "\n", "\n", "\n", "\n", "\n", "\n"], Map(texts, (t: string) => Val(t)))
         == f + "\n\n" + Join(texts, "\n")
  {
    var p := "\n" + f + "\n\n";
    var lits := [p, "\n", "\n", "\n", "\n", "\n", "\n", "\n"];
    var slots := Map(texts, (t: string) => Val(t));
    NamespaceAccumulates(p, lits, slots, texts);
    TrimNamespace(f, Join(texts, "\n"));
  }

  lemma NamespaceAccumulates(p: string, lits: seq<string>, slots: seq<Slot>, texts: seq<string>)
    requires |texts| == 7 && |p| > 0 && p[|p| - 1] == '\n'
    requires lits == [p, "\n", "\n", "\n", "\n", "\n", "\n", "\n"]
    requires slots == Map(texts, (t: string) => Val(t))
    ensures Accumulate(lits, slots, 7) == p + Join(texts, "\n") + "\n"
  {
    assert NoMarker(slots);
    assert forall i :: 0 <= i < 7 ==> EndsWithNewline(lits[i]);
    LineStartComposition(lits, slots, 7);
    InterleaveLines(lits, slots, texts, 7);
    assert texts[..7] == texts;
  }

  lemma TrimNamespace(f: string, j: string)
    ensures Trim("\n" + f + "\n\n" + j + "\n") == f + "\n\n" + j
  {
    Regroup("\n", f, "\n\n", j);
    TrimWrapped(f + "\n\n" + j);
  }

  /** The namespace is the field type, a blank line, and the sections one
      after another, each starting a new line. Every section stands at the
      start of a line, so none of them is re-indented. */
  lemma NamespaceJoinsSections(d: Dialect, s: IntrospectionSchema)
    ensures Namespace(d, s) == FieldType(d) + "\n\n" + Join(Sections(d, s), "\n")
  {
    NamespaceShape(FieldType(d), Sections(d, s));
  }

  /** The header `render.ts` writes before the cleared namespace. */
  const TsHeader := "\n      /* tslint:disable */\n      import {GraphQLResolveInfo} from \"graphql\";\n      "

  /** The header `render.js` writes. */
  const JsHeader := "/* tslint:disable */\nimport {GraphQLResolveInfo} from \"graphql\";\n"

  function Header(d: Dialect): string {
    match d
    case Ts => TsHeader
    case Js => JsHeader
  }

  /** `render.ts` closes its output with a line break and four spaces. */
  function Footer(d: Dialect): string {
    match d
    case Ts => "\n    "
    case Js => ""
  }

  /** `render(root)` for the schema `root.data.__schema`. */
  function Render(d: Dialect, s: IntrospectionSchema): string {
    Header(d) + ClearBlankLines(Namespace(d, s)) + Footer(d)
  }

  lemma {:induction false} NonBlankJoin(ls: seq<string>)
    ensures NonBlank(Join(ls, "\n")) == NonBlank(Flatten(ls))
  {
    if |ls| == 1 {
      assert Flatten(ls[1..]) == [];
      assert Flatten(ls) == ls[0] + [] == ls[0];
    } else if |ls| > 1 {
      var rest := Join(ls[1..], "\n");
      NonBlankJoin(ls[1..]);
      NonBlankAppend(ls[0], "\n" + rest);
      NonBlankAppend("\n", rest);
      NonBlankAppend(ls[0], Flatten(ls[1..]));
      assert NonBlank("\n") == [];
      assert ls[0] + "\n" + rest == ls[0] + ("\n" + rest);
    }
  }

  /** What clearing and wrapping keep of a namespace built from `f` and
      `texts`. */
  lemma WrappedContent(h: string, f: string, texts: seq<string>, ftr: string)
    ensures NonBlank(h + ClearBlankLines(f + "\n\n" + Join(texts, "\n")) + ftr) ==
      NonBlank(h) + NonBlank(f) + NonBlank(Flatten(texts)) + NonBlank(ftr)
  {
    var ns := f + "\n\n" + Join(texts, "\n");
    var c := ClearBlankLines(ns);
    calc {
      NonBlank(h + c + ftr);
      { NonBlankAppend(h + c, ftr); NonBlankAppend(h, c); }
      NonBlank(h) + NonBlank(c) + NonBlank(ftr);
      { ClearBlankLinesKeepsNonBlank(ns); NamespaceContent(f, texts); }
      NonBlank(h) + (NonBlank(f) + NonBlank(Flatten(texts))) + NonBlank(ftr);
      { RegroupInner(NonBlank(h), NonBlank(f), NonBlank(Flatten(texts)), NonBlank(ftr)); }
      NonBlank(h) + NonBlank(f) + NonBlank(Flatten(texts)) + NonBlank(ftr);
    }
  }

  /** Apart from whitespace a namespace is its field type and its
      sections. */
  lemma NamespaceContent(f: string, texts: seq<string>)
    ensures NonBlank(f + "\n\n" + Join(texts, "\n")) == NonBlank(f) + NonBlank(Flatten(texts))
  {
    var j := Join(texts, "\n");
    NonBlankAppend(f, "\n\n");
    NonBlankAppend(f + "\n\n", j);
    assert NonBlank("\n\n") == [];
    NonBlankJoin(texts);
  }

  /** Apart from whitespace the output is the header, the field type, the
      seven sections in template order, and the footer: clearing blank lines
      loses nothing else and reorders nothing. */
  lemma RenderContent(d: Dialect, s: IntrospectionSchema)
    ensures NonBlank(Render(d, s)) ==
      NonBlank(Header(d)) + NonBlank(FieldType(d)) + NonBlank(Flatten(Sections(d, s))) + NonBlank(Footer(d))
  {
    NamespaceJoinsSections(d, s);
    WrappedContent(Header(d), FieldType(d), Sections(d, s), Footer(d));
  }
}
