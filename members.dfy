/** Members of a declaration: doc comments, fields of output types
    (`name?: GraphqlField<Parent<Ctx>, Args, Result, Ctx>`), inline argument
    object types and fields of input objects. The `.ts` and `.js` renderers
    agree on all of these. */
module Members {
  import opened Text
  import opened Schema
  import opened TypeRefs
  import opened RenderTag
  import opened RenderTagProps
  import opened TemplateShapes

  // ---------------------------------------------------------------------
  // Doc comments

  /** `renderComment`: the marker for a missing description, otherwise a
      `/** … */` block with one ` * ` line per line of the description. */
  function RenderComment(description: string): (c: Slot)
    ensures c.OmitNextNewline? <==> description == ""
    ensures c.Val? ==>
      Lines(c.text) == ["/**"] + PrefixEach(" * ", Lines(description)) + [" */"]
  {
    if description == "" then OmitNextNewline
    else
      CommentLines(description);
      Val("/**\n * " + Join(Lines(description), "\n * ") + "\n */")
  }

  lemma CommentLines(d: string)
    ensures Lines("/**\n * " + Join(Lines(d), "\n * ") + "\n */")
         == ["/**"] + PrefixEach(" * ", Lines(d)) + [" */"]
  {
    var ls := Lines(d);
    var body := PrefixEach(" * ", ls);
    PrefixedJoin(" * ", ls);
    assert "\n" + " * " == "\n * ";
    var inner := Join(body, "\n");
    assert " * " + Join(ls, "\n * ") == inner;
    var head := ["/**"] + body;
    assert head[1..] == body;
    assert Join(head, "\n") == "/**" + "\n" + inner;
    JoinSnoc(head, " */", "\n");
    var all := head + [" */"];
    assert "/**\n * " + Join(ls, "\n * ") + "\n */" == "/**" + "\n" + inner + "\n" + " */";
    PrefixEachSingleLine(" * ", ls);
    assert AllSingleLine(all) by {
      forall i | 0 <= i < |all|
        ensures SingleLine(all[i])
      {
        if 0 < i < |all| - 1 {
          assert all[i] == body[i - 1];
        }
      }
    }
    LinesOfJoin(all);
  }

  /** A comment has two lines more than its description. */
  lemma CommentLineCount(d: string)
    requires d != ""
    ensures |Lines(RenderComment(d).text)| == |Lines(d)| + 2
  {
  }

  // ---------------------------------------------------------------------
  // Output fields

  /** `renderArgumentType`: an inline object type `{a: A, b: B}`. */
  function RenderArgumentType(args: seq<InputValue>): (r: string)
    ensures |args| == 0 ==> r == "{}"
    ensures StartsWith(r, "{") && EndsWith(r, "}")
  {
    "{" + Join(Map(args, ArgumentEntry), ", ") + "}"
  }

  function ArgumentEntry(a: InputValue): string {
    a.name + ": " + Str(RenderType(a.typ, false))
  }

  /** The member name, with `?` for a nullable field. */
  function MemberName(name: string, t: TypeRef): string {
    if Nullable(t) then name + "?" else name
  }

  /** The type of the arguments: the generated `<field>Args` interface, or
      the inline type of no arguments, `{}`. */
  function ArgsTypeName(f: Field): (r: string)
    ensures |f.args| == 0 ==> r == "{}"
    ensures |f.args| > 0 ==> r == f.name + "Args"
  {
    if |f.args| > 0 then f.name + "Args" else RenderArgumentType(f.args)
  }

  /** The source (parent) type of a resolver. */
  function SourceType(parent: string): string {
    if parent != "" then Generic(parent) else "undefined"
  }

  /** The result type: the field type, or `T | undefined` when nullable. */
  function ResultType(f: Field): string {
    var t := Str(RenderType(f.typ, false));
    if Nullable(f.typ) then t + " | undefined" else t
  }

  /** Everything of a member line before its result type. */
  function MemberHead(f: Field, parent: string): string {
    MemberName(f.name, f.typ) + ": GraphqlField<" + SourceType(parent) + ", " + ArgsTypeName(f) + ", "
  }

  /** `renderMember`. */
  function RenderMember(f: Field, parent: string): (r: string)
    ensures StartsWith(r, f.name) && |r| > |f.name|
    ensures r[|f.name|] == '?' <==> Nullable(f.typ)
    ensures StartsWith(r, MemberHead(f, parent))
  {
    var head := MemberHead(f, parent);
    MemberHeadShape(f, parent);
    KeepsHead(head, ResultType(f) + ", Ctx>", f.name);
    head + (ResultType(f) + ", Ctx>")
  }

  /** The argument type of a member line is `<field>Args` exactly when the
      field has arguments, and `{}` exactly when it has none; it stands after
      the name, the optional `?` and the parent type. */
  lemma MemberArgsType(f: Field, parent: string)
    ensures StartsWith(RenderMember(f, parent),
      MemberName(f.name, f.typ) + ": GraphqlField<" + SourceType(parent) + ", " + ArgsTypeName(f) + ", ")
    ensures ArgsTypeName(f) == f.name + "Args" <==> |f.args| > 0
    ensures ArgsTypeName(f) == "{}" <==> |f.args| == 0
  {
    if |f.args| > 0 {
      assert |f.name + "Args"| >= 4;
    } else {
      assert |f.name + "Args"| != |"{}"|;
    }
  }

  /** The head starts with the name, then `?` exactly for a nullable field. */
  lemma MemberHeadShape(f: Field, parent: string)
    ensures StartsWith(MemberHead(f, parent), f.name) && |MemberHead(f, parent)| > |f.name|
    ensures MemberHead(f, parent)[|f.name|] == '?' <==> Nullable(f.typ)
  {
    var p := MemberName(f.name, f.typ) + ": GraphqlField<";
    var head := MemberHead(f, parent);
    HeadOfFive(p, SourceType(parent), ", ", ArgsTypeName(f), ", ");
    assert head == p + SourceType(parent) + ", " + ArgsTypeName(f) + ", ";
    assert head[|f.name|] == head[..|p|][|f.name|] == p[|f.name|];
    assert p[..|f.name|] == f.name;
    PrefixTransitive(f.name, p, head);
  }

  /** Appending keeps a prefix and the characters it covers. */
  lemma KeepsHead(a: string, b: string, p: string)
    requires StartsWith(a, p) && |a| > |p|
    ensures StartsWith(a + b, a) && StartsWith(a + b, p)
    ensures (a + b)[|p|] == a[|p|]
  {
    assert (a + b)[..|a|] == a;
    PrefixTransitive(p, a, a + b);
  }

  lemma HeadOfFive(a: string, b: string, c: string, d: string, e: string)
    ensures StartsWith(a + b + c + d + e, a)
  {
    assert (a + b + c + d + e)[..|a|] == a;
  }

  lemma UndefinedCtx()
    ensures " | undefined" + ", Ctx>" == " | undefined, Ctx>"
  {
  }

  /** A nullable field's line closes with ` | undefined` after its type. */
  lemma NullableResultType(f: Field, parent: string)
    requires Nullable(f.typ)
    ensures EndsWith(RenderMember(f, parent), Str(RenderType(f.typ, false)) + " | undefined, Ctx>")
  {
    var t := Str(RenderType(f.typ, false));
    var head := MemberHead(f, parent);
    assert ResultType(f) == t + " | undefined";
    UndefinedCtx();
    Regroup3(t, " | undefined", ", Ctx>");
    assert RenderMember(f, parent) == head + (t + " | undefined, Ctx>");
    Tail(head, t + " | undefined, Ctx>");
  }

  /** A non-null field's line closes with its type alone. */
  lemma NonNullResultType(f: Field, parent: string)
    requires !Nullable(f.typ)
    ensures EndsWith(RenderMember(f, parent), ", " + Str(RenderType(f.typ, false)) + ", Ctx>")
  {
    var t := Str(RenderType(f.typ, false));
    var head := MemberHead(f, parent);
    assert RenderMember(f, parent) == head + (t + ", Ctx>");
    var pre := MemberName(f.name, f.typ) + ": GraphqlField<" + SourceType(parent) + ", " + ArgsTypeName(f);
    assert head == pre + ", ";
    Tail(pre, ", " + t + ", Ctx>");
    assert pre + ", " + (t + ", Ctx>") == pre + (", " + t + ", Ctx>");
  }

  lemma Tail(a: string, b: string)
    ensures EndsWith(a + b, b)
  {
    assert (a + b)[|a|..] == b;
  }

  /** `| undefined` ends the result type exactly when the field is nullable. */
  lemma ResultMarkedIffNullable(f: Field, parent: string)
    requires NamesOk(f.typ)
    ensures EndsWith(RenderMember(f, parent), " | undefined, Ctx>") <==> Nullable(f.typ)
  {
    var r := RenderMember(f, parent);
    var t := Str(RenderType(f.typ, false));
    if Nullable(f.typ) {
      NullableResultType(f, parent);
      SuffixOfSuffix(r, t + " | undefined, Ctx>", " | undefined, Ctx>");
    } else {
      NonNullResultType(f, parent);
      PlainShape(f.typ, false);
      UnmarkedLine(r, t);
    }
  }

  lemma SuffixOfSuffix(r: string, x: string, y: string)
    requires EndsWith(r, x) && EndsWith(x, y)
    ensures EndsWith(r, y)
  {
    assert r[|r| - |y|..] == x[|x| - |y|..];
  }

  lemma UnmarkedLine(r: string, t: string)
    requires PlainText(t) && EndsWith(r, ", " + t + ", Ctx>")
    ensures !EndsWith(r, " | undefined, Ctx>")
  {
    var a := r[..|r| - 6];
    assert r == a + ", Ctx>";
    EndsWithAppend(a, ", " + t, ", Ctx>");
    NoUndefinedAfterSeparator(a, t);
    EndsWithAppend(a, " | undefined", ", Ctx>");
  }

  /** A plain type after `: ` or `, ` does not end in ` | undefined`. */
  lemma NoUndefinedAfterSeparator(a: string, v: string)
    requires PlainText(v)
    requires EndsWith(a, ": " + v) || EndsWith(a, ", " + v)
    ensures !EndsWith(a, " | undefined")
  {
    var x := " | undefined";
    var n := |a|;
    assert a[n - |v| - 1] == ' ';
    assert a[n - |v| - 2] == ':' || a[n - |v| - 2] == ',';
    forall i | 0 <= i < |v|
      ensures a[n - |v| + i] == v[i]
    {
      if EndsWith(a, ": " + v) {
        assert a[n - |v| + i] == (": " + v)[i + 2];
      } else {
        assert a[n - |v| + i] == (", " + v)[i + 2];
      }
    }
    if |v| <= 9 {
      NotEndsWith(a, x, 10 - |v|);
    } else if EndsWith(v, "[]") {
      assert a[n - 1] == v[|v| - 1] == ']';
      NotEndsWith(a, x, 11);
    } else {
      assert v[|v| - 10] != ' ';
      NotEndsWith(a, x, 2);
    }
  }

  /** `renderMemberWithComment`: the member below its comment. */
  function RenderMemberWithComment(f: Field, parent: string): (r: string)
    ensures r == CommentPrefix(RenderComment(f.description)) + RenderMember(f, parent)
  {
    var c := RenderComment(f.description);
    var m := RenderMember(f, parent);
    CommentedLine(c, m);
    Source(["\n", "\n", "\n"], [c, Val(m)])
  }

  /** `source\`\n${comment}\n${line}\n\``. */
  lemma CommentedLine(c: Slot, m: string)
    ensures Source(["\n", "\n", "\n"], [c, Val(m)]) == CommentPrefix(c) + m
  {
    var rest, restSlots := ["\n", "\n"], [Val(m)];
    ConsShifted("\n", rest);
    ConsShifted(c, restSlots);
    assert ["\n"] + rest == ["\n", "\n", "\n"] && [c] + restSlots == [c, Val(m)];
    StepAtLineStart("\n", m, "\n");
    assert Accumulate(rest, restSlots, 1) == Step("\n", Val(m), "\n") == "\n" + m + "\n";
    CommentedWrapped(["\n", "\n", "\n"], [c, Val(m)], rest, restSlots, m);
  }

  // ---------------------------------------------------------------------
  // Input fields

  /** `renderInputMember`: `name?: T` for a nullable input field. */
  function RenderInputMember(f: InputValue): (r: string)
    ensures StartsWith(r, f.name) && |r| > |f.name|
    ensures r[|f.name|] == '?' <==> Nullable(f.typ)
    ensures EndsWith(r, ": " + Str(RenderType(f.typ, false)))
  {
    var t := Str(RenderType(f.typ, false));
    var optional := !f.typ.NonNull?;
    var name := if optional then f.name + "?" else f.name;
    var r := name + ": " + t;
    assert r == name + (": " + t);
    assert r[..|f.name|] == f.name;
    assert r[|f.name|] == (name + ": ")[|f.name|];
    r
  }

  /** Unlike an output field, a nullable input field only gets the `?`: its
      type never ends in ` | undefined`. */
  lemma InputMemberUnmarked(f: InputValue)
    requires NamesOk(f.typ)
    ensures !EndsWith(RenderInputMember(f), " | undefined")
  {
    PlainShape(f.typ, false);
    NoUndefinedAfterSeparator(RenderInputMember(f), Str(RenderType(f.typ, false)));
  }

  /** `renderInputMemberWithComment`. */
  function RenderInputMemberWithComment(f: InputValue): (r: string)
    ensures r == CommentPrefix(RenderComment(f.description)) + RenderInputMember(f)
  {
    var c := RenderComment(f.description);
    var m := RenderInputMember(f);
    CommentedLine(c, m);
    Source(["\n", "\n", "\n"], [c, Val(m)])
  }
}
