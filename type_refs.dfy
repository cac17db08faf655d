/** `renderType`: a GraphQL type reference as a TypeScript type expression.

    The `optional` flag says that the position admits a missing value; a
    position with the flag set renders as `(T | undefined)`. A `NON_NULL`
    wrapper clears the flag for what it wraps, and a `LIST` sets it for its
    element. Leaves are mapped through the scalar table, emitted bare (enums
    and input objects) or applied to the context parameter (`Name<Ctx>`). */
module TypeRefs {
  import opened Text
  import opened Schema

  /** The built-in scalars the table knows. */
  const ScalarNames: set<string> := {"String", "Int", "Float", "Boolean", "ID"}

  /** The scalar table: the TypeScript type of a built-in scalar; a custom
      scalar has no entry. */
  function ScalarType(name: string): (r: Option<string>)
    ensures r.Some? <==> name in ScalarNames
    ensures r.Some? ==> r.value in {"string", "number", "boolean"}
    ensures r == Some("string") <==> name == "String" || name == "ID"
    ensures r == Some("number") <==> name == "Int" || name == "Float"
  {
    if name == "String" || name == "ID" then Some("string")
    else if name == "Int" || name == "Float" then Some("number")
    else if name == "Boolean" then Some("boolean")
    else None
  }

  /** How a template literal prints a value that may be `undefined`. */
  function Str(o: Option<string>): string {
    match o
    case Some(s) => s
    case None => "undefined"
  }

  function MaybeOptional(s: string, optional: bool): string {
    if optional then "(" + s + " | undefined)" else s
  }

  /** `Name<Ctx>`. */
  function Generic(name: string): string {
    name + "<Ctx>"
  }

  /** Whether the flag is still set once the outermost wrapper is taken into
      account. */
  predicate Effective(t: TypeRef, optional: bool) {
    optional && !t.NonNull?
  }

  /** The reference without its `NON_NULL` wrappers. */
  function StripNonNull(t: TypeRef): (r: TypeRef)
    ensures !r.NonNull?
  {
    if t.NonNull? then StripNonNull(t.ofType) else t
  }

  /** `renderType(type, optional)`. JavaScript `undefined`, the result for a
      custom scalar in a position without the flag, is `None`. */
  function RenderType(t: TypeRef, optional: bool): (r: Option<string>)
    ensures r.None? <==>
      !Effective(t, optional) && StripNonNull(t).Named? &&
      StripNonNull(t).kind == Scalar && StripNonNull(t).name !in ScalarNames
    ensures Effective(t, optional) ==>
      r.Some? && StartsWith(r.value, "(") && EndsWith(r.value, " | undefined)")
  {
    match t
    case Named(k, n) =>
      (match k
       case Scalar => if optional then Some(MaybeOptional(Str(ScalarType(n)), true)) else ScalarType(n)
       case Enum => Some(MaybeOptional(n, optional))
       case InputObject => Some(MaybeOptional(n, optional))
       case Object => Some(MaybeOptional(Generic(n), optional))
       case Union => Some(MaybeOptional(Generic(n), optional))
       case Interface => Some(MaybeOptional(Generic(n), optional)))
    case ListOf(e) => Some(MaybeOptional(Str(RenderType(e, true)) + "[]", optional))
    case NonNull(e) => RenderType(e, false)
  }

  /** `NON_NULL` renders what it wraps without the flag, whatever the flag. */
  lemma NonNullResetsFlag(t: TypeRef, optional: bool)
    ensures RenderType(NonNull(t), optional) == RenderType(t, false)
  {
  }

  /** Below the outermost `NON_NULL`, the flag wraps the rendering once in
      `( … | undefined)` and changes nothing else. */
  lemma OptionalWrapsOnce(t: TypeRef)
    requires !t.NonNull?
    ensures RenderType(t, true) == Some("(" + Str(RenderType(t, false)) + " | undefined)")
  {
  }

  /** A list renders its element with the flag set, then `[]`: a nullable
      element shows as `(E | undefined)[]`, a non-null one as `E[]`. */
  lemma ListElement(e: TypeRef)
    ensures !e.NonNull? ==>
      RenderType(ListOf(e), false) == Some("(" + Str(RenderType(e, false)) + " | undefined)[]")
    ensures e.NonNull? ==>
      RenderType(ListOf(e), false) == Some(Str(RenderType(e.ofType, false)) + "[]")
  {
    var inner := RenderType(e, true);
    assert RenderType(ListOf(e), false) == Some(Str(inner) + "[]");
    if !e.NonNull? {
      OptionalWrapsOnce(e);
      var x := Str(RenderType(e, false));
      assert Str(inner) == "(" + x + " | undefined)";
      assert " | undefined)" + "[]" == " | undefined)[]";
      assert "(" + x + " | undefined)" + "[]" == "(" + x + " | undefined)[]";
    } else {
      assert inner == RenderType(e.ofType, false);
    }
  }

  /** What a rendering without the flag looks like: `undefined`, a list
      type, or a type without blanks. */
  predicate PlainText(v: string) {
    v == "undefined" || EndsWith(v, "[]") || ' ' !in v
  }

  lemma {:induction false} PlainShape(t: TypeRef, optional: bool)
    requires NamesOk(t) && !Effective(t, optional)
    ensures PlainText(Str(RenderType(t, optional)))
  {
    match t
    case Named(k, n) =>
      NameHasNoSeparator(n);
      assert ' ' !in Generic(n) by {
        assert Generic(n) == n + "<Ctx>";
      }
    case ListOf(e) =>
    case NonNull(e) =>
      PlainShape(e, false);
  }

  /** A plain rendering never ends like a flagged one. */
  lemma PlainIsUnmarked(t: TypeRef, optional: bool)
    requires NamesOk(t) && !Effective(t, optional)
    ensures !EndsWith(Str(RenderType(t, optional)), " | undefined")
    ensures !EndsWith(Str(RenderType(t, optional)), " | undefined)")
  {
    PlainShape(t, optional);
    var s := Str(RenderType(t, optional));
    if s == "undefined" {
      assert |s| == 9;
    } else if EndsWith(s, "[]") {
      assert s[|s| - 1] == ']';
      NotEndsWith(s, " | undefined", 11);
      NotEndsWith(s, " | undefined)", 12);
    } else {
      assert ' ' !in s;
      NotEndsWith(s, " | undefined", 0);
      NotEndsWith(s, " | undefined)", 0);
    }
  }

  /** `| undefined)` closes the rendering exactly when the flag is in effect. */
  lemma MarkedIffOptional(t: TypeRef, optional: bool)
    requires NamesOk(t)
    ensures (RenderType(t, optional).Some? && EndsWith(RenderType(t, optional).value, " | undefined)"))
        <==> Effective(t, optional)
  {
    if !Effective(t, optional) {
      PlainIsUnmarked(t, optional);
    }
  }

  /** What a custom scalar prints: the text `undefined` where the flag is
      not in effect, `(undefined | undefined)` where it is, and so
      `(undefined | undefined)[]` as the element of a list. */
  lemma CustomScalarText(n: string)
    requires n !in ScalarNames
    ensures Str(RenderType(Named(Scalar, n), false)) == "undefined"
    ensures RenderType(Named(Scalar, n), true) == Some("(undefined | undefined)")
    ensures RenderType(ListOf(Named(Scalar, n)), false) == Some("(undefined | undefined)[]")
    ensures RenderType(NonNull(Named(Scalar, n)), true) == None
  {
    assert ScalarType(n) == None;
    var u := Str(RenderType(Named(Scalar, n), false));
    assert RenderType(Named(Scalar, n), true) == Some(MaybeOptional(u, true));
    assert MaybeOptional(u, true) == "(" + "undefined" + " | undefined)" == "(undefined | undefined)";
    assert RenderType(ListOf(Named(Scalar, n)), false)
        == Some(MaybeOptional(Str(RenderType(Named(Scalar, n), true)) + "[]", false));
    assert "(undefined | undefined)" + "[]" == "(undefined | undefined)[]";
  }
}
