# graphql-field-resolver-to-typescript: the rendering engine in Dafny

This project models the rendering engine of graphql-field-resolver-to-typescript. The engine turns a GraphQL introspection result into a TypeScript declaration file: one interface per object type, argument interfaces for the root operation fields, input objects, enums, unions, interfaces, and a table of default resolvers.

It has three parts, and all of them are modelled:

- **The `source` template tag** (`src/renderTag.ts`, with its compiled twin `src/renderTag.js`).
  - It is an indentation-aware template composer.
  - `RenderTag.Accumulate` and `RenderTag.Source` specify it as functions.
  - `RenderTag.Compose` is the tag's own loop, proved to compute `Source`.
  - `RenderTagProps` and `TemplateShapes` prove what it does: re-indentation, the `OMIT_NEXT_NEWLINE` marker, the one-newline trim, plain concatenation, and the template shapes the renderer uses.
- **`renderType`** (`TypeRefs`): a type reference rendered as a TypeScript type under the `optional` flag. JavaScript `undefined` becomes `None`.
- **The `Renderer`**, in both versions of the source:
  - `render.ts` and the older `render.js` are kept apart by `Declarations.Dialect`.
  - `Schema` holds the introspection data. `Members` renders one field line. `Declarations` renders one declaration and one section. `Arguments` renders the argument interfaces. `BlankLines` models the final `replace(/^\s+$/gm, '')`. `Assembly` assembles `render`.
  - `Findings` holds one defect of `render.js` and its correction.

Some things become parameters of the model:

- The introspection result is an `IntrospectionSchema` value, not the output of a GraphQL call.
- A missing description (`null`, `undefined` or `""`) is the empty string.

## Model

| member | source | states |
|---|---|---|
| `RenderTag.Compose` | src/renderTag.ts:19-34 | The tag's loop (measure the column, substitute the value or apply the marker, append the next literal, trim) returns exactly `Source(lits, slots)`. |
| `RenderTag.Pad` | src/renderTag.ts:3-4 | The padding is `min(n, 87)` spaces and never longer than the fixed `spaces` string. |
| `RenderTag.LastNewline` | src/renderTag.js:31 | `lastIndexOf('\n')`: -1 or the position of a newline. |
| `RenderTag.LastNewlineSpec` | src/renderTag.js:31 | No newline comes after that position, so it is the last one, and -1 means there is none. |
| `RenderTag.IndentSpec` | src/renderTag.ts:23 | The column is the number of characters after the last newline, or the whole length when there is none. |
| `RenderTag.LeadingSpacesSpec` | src/renderTag.ts:26 | Every character before the count is a space. With the count's own contract (the next character is not a space), that is the run ` *` matches. |
| `RenderTag.StripBlankLineSpec` | src/renderTag.ts:26 | `replace(/^ *\n/, '')`: a suffix of the literal, different from it exactly when the literal starts with spaces and a newline. |
| `RenderTag.Trim` | src/renderTag.ts:33 | The result differs from its input by at most one leading and one trailing newline. |
| `RenderTag.Source` | src/renderTag.ts:19-34 | The tag's result: the accumulated text with one newline trimmed off each end. `Compose` is proved to return it; `PlainSource`, `SourceOfOneSlot`, `ReindentLines`, the marker lemmas and the `Trim*` lemmas state its text. |
| `RenderTagProps.TrimWrapped` | src/renderTag.ts:33 | `\nX\n` trims to `X`, and `\n\nX\n\n` to `\nX\n`: exactly one newline comes off each end. |
| `RenderTagProps.TrimLeadingOnly` | src/renderTag.js:41 | A leading newline is removed when there is no trailing one. |
| `RenderTagProps.TrimTrailingOnly` | src/renderTag.js:41 | A trailing newline is removed when there is no leading one. |
| `RenderTagProps.TrimUntouched` | src/renderTag.js:41 | Text with no newline at either end is unchanged. |
| `RenderTagProps.ReindentSingleLine` | src/renderTag.ts:29 | A value without newlines is substituted unchanged. |
| `RenderTagProps.ReindentNoPad` | src/renderTag.ts:29 | With empty padding the value is substituted unchanged. |
| `RenderTagProps.ReindentLines` | src/renderTag.ts:29 | Every line of a substituted value after the first starts with the padding; the first is untouched. |
| `RenderTagProps.ReindentLine` | src/renderTag.js:37 | `l1\nl2` substituted with padding `p` becomes `l1\np l2`. |
| `RenderTagProps.ReindentAppendAt` | src/renderTag.js:37 | Re-indentation splits over a split of the value. |
| `RenderTagProps.IndentsMultilineValue` | src/renderTag.ts:23-29 | After `head\n` plus `n` spaces, a two-line value gets its second line indented by `n` spaces. This is the test `abc\n   ${'multiline\nsubstitution'}`. |
| `RenderTagProps.IndentIs` | src/renderTag.ts:23 | The column is `c` when the last `c` characters hold no newline and the one before them is a newline. |
| `RenderTagProps.IndentAppend` | src/renderTag.ts:23 | Appending text without a newline moves the column by its length. |
| `RenderTagProps.IndentAfterNewline` | src/renderTag.js:31 | After a newline the column is the length of what follows it. |
| `RenderTagProps.PadIsBlanks` | src/renderTag.ts:29 | Up to 87 columns, the padding is exactly that many spaces. |
| `RenderTagProps.MarkerDropsBlankLine` | src/renderTag.ts:25-27 | After the marker, a literal of `k` spaces, a newline and a rest contributes only the rest. |
| `RenderTagProps.MarkerOmitsBlankLine` | src/renderTag.js:33-35 | The marker contributes no text of its own. After it, `abc` and `   \nabc` compose to `abcabc`. |
| `RenderTagProps.MarkerKeepsLiteral` | src/renderTag.ts:26 | After the marker, a literal that does not start with a blank line is appended unchanged. |
| `RenderTagProps.MarkerKeepsAfterFirstNewline` | src/renderTag.ts:26 | After the marker, everything after the literal's first newline is appended untouched. |
| `RenderTagProps.StepAtLineStart` | src/renderTag.ts:29-30 | A value substituted at the start of a line is appended unchanged, whatever newlines it holds. |
| `RenderTagProps.StepSingleLine` | src/renderTag.ts:29-30 | A one-line value is appended unchanged, then the next literal. |
| `RenderTagProps.StepExtends` | src/renderTag.js:29-40 | One iteration only appends to the accumulated text. |
| `RenderTagProps.AccumulateGrows` | src/renderTag.ts:20-32 | The loop never rewrites earlier text: each accumulated prefix extends the one before. |
| `RenderTagProps.LiteralAfterValueIsKept` | src/renderTag.js:38 | After a value slot, the next literal is appended whole, once, at the end. |
| `RenderTagProps.PlainComposition` | src/renderTag.ts:20-32 | With no marker and only one-line values, the loop concatenates literals and values in order. |
| `RenderTagProps.PlainSource` | src/renderTag.js:28-41 | With no marker and only one-line values, `source` is the untagged template with one newline trimmed off each end. |
| `RenderTagProps.LineStartComposition` | src/renderTag.ts:20-32 | When every slot starts a line, the loop concatenates literals and values in order. |
| `RenderTagProps.SourceOfOneSlot` | src/renderTag.ts:19-34 | A template with one slot is its two literals around the substituted value, then trimmed. |
| `TemplateShapes.CommentShift` | src/renderTag.ts:20-32 | In a template that opens with a description slot, the rest composes the same behind the comment's lines. |
| `TemplateShapes.CommentedSource` | src/renderTag.ts:19-34 | A declaration with a description is the comment, a line break, then the declaration as it renders without one. |
| `TemplateShapes.IndentedValue` | src/renderTag.ts:29 | A value substituted after a one-line padding at a line start has every line indented by that padding. |
| `TemplateShapes.IndentedAfterBrace` | src/renderTag.ts:23-29 | A value substituted after a newline and four spaces is indented by four spaces on every line. |
| `TemplateShapes.CommentedWrapped` | src/renderTag.ts:33 | When the rest of a commented template composes to `\nm\n`, the result is the comment, then `m`. |
| `TemplateShapes.CommentedOpen` | src/renderTag.ts:33 | When the rest composes to `\nm` and `m` does not end in a newline, the result is the comment, then `m`. |
| `TemplateShapes.OpenTemplate` | src/renderTag.js:26-42 | `source` over `\np`, a one-line value and `l1` gives `p v l1`. |
| `TemplateShapes.LineStartOpenTemplate` | src/renderTag.js:26-42 | The same when the value starts a line, whatever its lines. |
| `TypeRefs.ScalarType` | src/render.ts:24-30 | `String`/`ID` map to `string`, `Int`/`Float` to `number`, `Boolean` to `boolean`, and nothing else has an entry. |
| `TypeRefs.RenderType` | src/render.ts:196-219 | The result is `undefined` exactly for a custom scalar without the flag. With the flag in effect it is `( … \| undefined)`. |
| `TypeRefs.NonNullResetsFlag` | src/render.ts:216-217 | For any flag, `NON_NULL` renders what it wraps with the flag false. |
| `TypeRefs.OptionalWrapsOnce` | src/render.ts:197-199 | Below `NON_NULL`, the flag wraps the flagless rendering once in `( … \| undefined)`. |
| `TypeRefs.ListElement` | src/render.js:149-150 | A list renders its element with the flag set, then `[]`: `(E \| undefined)[]` for a nullable element, `E[]` for a non-null one. |
| `TypeRefs.PlainShape` | src/render.ts:204-218 | A rendering without the flag is `undefined`, a list type, or a type without blanks. |
| `TypeRefs.MarkedIffOptional` | src/render.ts:196-219 | ` \| undefined)` closes the rendering exactly when the flag is in effect. |
| `TypeRefs.PlainIsUnmarked` | src/render.js:132-154 | A rendering without the flag never ends in ` \| undefined` or ` \| undefined)`. |
| `TypeRefs.CustomScalarText` | src/render.ts:205-206 | A custom scalar prints `undefined` without the flag, `(undefined \| undefined)` with it, and `(undefined \| undefined)[]` as a list element; under `NON_NULL` it is `undefined` whatever the flag. |
| `Members.RenderComment` | src/render.ts:224-230 | A missing description gives the marker. Otherwise the comment's lines are `/**`, then ` * ` before each description line in order, then ` */`. |
| `Members.CommentLineCount` | src/render.js:158-164 | A comment has two lines more than its description. |
| `Members.RenderArgumentType` | src/render.ts:235-242 | The inline argument type is braced, and `{}` for no arguments. |
| `Members.ArgsTypeName` | src/render.ts:184-186 | A field with arguments takes `<field>Args` as its argument type, and a field without arguments `{}`. |
| `Members.MemberArgsType` | src/render.ts:180-190 | The member line is the name, `?` when nullable, `: GraphqlField<`, the parent type, then the argument type, which is `<field>Args` exactly when the field has arguments and `{}` exactly when it has none. |
| `Members.RenderMember` | src/render.ts:180-190 | The line starts with the field name. `?` follows it exactly when the field is nullable. Then come the parent type and the argument type. |
| `Members.NullableResultType` | src/render.ts:181-183 | A nullable field's result type is its type, then ` \| undefined`. |
| `Members.NonNullResultType` | src/render.js:121-126 | A non-null field's result type is its type alone. |
| `Members.ResultMarkedIffNullable` | src/render.ts:180-190 | The line ends in ` \| undefined, Ctx>` exactly when the field is nullable. |
| `Members.RenderMemberWithComment` | src/render.ts:167-175 | The member line, behind its comment when there is one. |
| `Members.RenderInputMember` | src/render.ts:450-456 | `name?: T` exactly for a nullable input field, and the line ends with `: T`. |
| `Members.InputMemberUnmarked` | src/render.js:327-333 | An input field's line never ends in ` \| undefined`. |
| `Members.RenderInputMemberWithComment` | src/render.ts:440-445 | The input member line, behind its comment when there is one. |
| `Declarations.OfKind` | src/render.ts:109-115 | A section's types are exactly the visible types of its kind. |
| `Declarations.OfKindAppend` | src/render.ts:109-115 | A section keeps input order and multiplicity: the types selected from a concatenation are those selected from each part, in turn. |
| `Declarations.OfKindOne` | src/render.js:52-54 | A single type is selected once when it is visible and of the section's kind, and not at all otherwise. |
| `Declarations.AbstractTypes` | src/render.ts:461-473 | The resolver table's types are exactly the visible unions and interfaces. |
| `Declarations.AbstractTypesAppend` | src/render.ts:462-464 | The unions and interfaces selected from a concatenation are those selected from each part, in turn. |
| `Declarations.AbstractTypesOne` | src/render.ts:462-464 | A single type is selected once when it is a visible union or interface, and not at all otherwise. |
| `Declarations.RenderTypename` | src/render.ts:138-150 | The discriminant is non-empty exactly when some visible union or interface lists the type among its possible types. It is then `__typename: 'T';` in `render.ts` and `__typename: 'T'` plus a newline in `render.js`. |
| `Declarations.RenderExtends` | src/render.js:92-100 | Empty exactly when there are no interfaces. Otherwise it starts with `extends I1<Ctx>` and ends with the last interface's `<Ctx>`, then a space. |
| `Declarations.ExtendsRoundTrip` | src/render.ts:155-162 | For GraphQL interface names, the clause is `extends `, a body and a space, and splitting the body at `, ` gives back every interface with `<Ctx>`, in order. |
| `Declarations.ExtendsSingleLine` | src/render.ts:155-162 | The `extends` clause of one-line interface names is one line. |
| `Declarations.RenderTypeDef` | src/render.ts:120-133 | One object type's declaration; its text is stated by `TypeDefWithoutTypename`, `TypeDefWithTypenameTs` and `TypeDefWithTypenameJs`. |
| `Declarations.TypeDefTemplate` | src/render.ts:120-133 | The type template with a one-line discriminant: the head, then the discriminant and the first field on one line. Later field lines are padded to the discriminant's end. |
| `Declarations.TypeDefTemplateOwnLine` | src/render.js:63-71 | The type template with a newline-terminated discriminant: the discriminant on its own line, then the fields four spaces in. |
| `Declarations.TypeDefWithoutTypename` | src/render.ts:120-133 | A type that no union or interface lists renders as the head, the fields four spaces in, and `}`. |
| `Declarations.TypeDefWithTypenameTs` | src/render.ts:127-128 | In `render.ts` the marker after `__typename: 'T';` puts the first field on the same line, and re-indents the rest to that column. |
| `Declarations.TypeDefWithTypenameJs` | src/render.js:67-68 | In `render.js` the discriminant keeps its own line and the fields follow four spaces in. |
| `Declarations.RenderTypes` | src/render.ts:109-115 | The object section: `OfKind`, `OfKindAppend` and `OfKindOne` fix which types appear, once each and in input order, and `TypesOne` states a one-type section. |
| `Declarations.TypesOne` | src/render.ts:109-115 | A section of one type is its declaration when it is a visible object type, and empty otherwise. |
| `Declarations.RenderEnumValueType` | src/render.ts:274-278 | A value's type entry is `NAME: 'NAME',`. |
| `Declarations.RenderEnumValue` | src/render.ts:283-288 | A value's entry is the type entry behind the value's comment. |
| `Declarations.EnumTemplate` | src/render.ts:258-269 | The enum template: an alias line, then the constant's head followed by its entries, which are re-indented to the head's end. |
| `Declarations.RenderEnum` | src/render.ts:258-269 | One enum's declaration; its text is stated by `EnumShape` and `EnumTemplate`. |
| `Declarations.EnumShape` | src/render.js:191-196 | An enum is `export type N = 'A' \| 'B'` in declared order, then `export const N: { … } = { … }`. |
| `Declarations.EnumPartsSingleLine` | src/render.js:195 | The alias and the type table of one-line value names are one line each. |
| `Declarations.PlainEnumValues` | src/render.ts:264-268 | Without descriptions, the value table equals the type table and is one line. |
| `Declarations.RenderEnums` | src/render.ts:247-253 | The enum section; `EnumsAppend` and `EnumsOne` state its text. |
| `Declarations.EnumsAppend` | src/render.ts:247-253 | The enums of a concatenation are those of each part, in turn, joined by `;` in `render.ts` and by a line break in `render.js`. |
| `Declarations.EnumsOne` | src/render.ts:249-251 | A single type contributes its enum declaration when it is a visible enum, and nothing otherwise. |
| `Declarations.UnionTemplate` | src/render.js:231-239 | The union template is one alias line, of which the trim keeps one closing newline. |
| `Declarations.RenderUnion` | src/render.ts:304-314 | One union's declaration; its text is stated by `UnionShape` and `UnionTemplate`. |
| `Declarations.UnionShape` | src/render.ts:304-314 | A union is `export type N<Ctx> = A<Ctx> \| B<Ctx>` in possible-type order. |
| `Declarations.RenderUnions` | src/render.ts:293-299 | The union section; `UnionsAppend` and `UnionsOne` state its text. |
| `Declarations.UnionsAppend` | src/render.ts:293-299 | The unions of a concatenation are those of each part, in turn, one per line. |
| `Declarations.UnionsOne` | src/render.ts:295-297 | A single type contributes its union declaration when it is a visible union, and nothing otherwise. |
| `Declarations.BracedTemplate` | src/render.ts:330-339 | The interface and input-object template: the head, the members four spaces in, and `}`. |
| `Declarations.RenderInterface` | src/render.ts:330-339 | `export interface N<Ctx> {`, then the member lines four spaces in, then `}`, behind its comment. |
| `Declarations.RenderInputObject` | src/render.ts:426-435 | `export interface N {`, then the input member lines four spaces in, then `}`, behind its comment. |
| `Declarations.RenderInterfaces` | src/render.ts:319-325 | The interface section; `InterfacesAppend` and `InterfacesOne` state its text. |
| `Declarations.InterfacesAppend` | src/render.ts:319-325 | The interfaces of a concatenation are those of each part, in turn, one per line. |
| `Declarations.InterfacesOne` | src/render.ts:321-323 | A single type contributes its declaration when it is a visible interface, and nothing otherwise. |
| `Declarations.RenderInputObjects` | src/render.ts:415-421 | The input-object section; `InputObjectsAppend` and `InputObjectsOne` state its text. |
| `Declarations.InputObjectsAppend` | src/render.ts:415-421 | The input objects of a concatenation are those of each part, in turn, one per line. |
| `Declarations.InputObjectsOne` | src/render.ts:417-419 | A single type contributes its declaration when it is a visible input object, and nothing otherwise. |
| `Declarations.RenderResolver` | src/render.ts:478-485 | An entry is four spaces, the name, and a `__resolveType` that returns `obj.__typename`. |
| `Declarations.RenderDefaultResolvers` | src/render.ts:461-473 | One exported constant holds the resolver entries, joined by `,` and a newline, between its head and `};`. |
| `Declarations.ResolversAppend` | src/render.ts:462-468 | The entries of a concatenation are the entries of each part, in turn, joined by `,` and a newline. |
| `Declarations.ResolversOne` | src/render.ts:462-468 | A visible union or interface gets exactly one entry; any other type, objects included, gets none. |
| `Arguments.ExtractRootTypes` | src/render.ts:59-69 | A name is a root exactly when it is the query type or a mutation or subscription type that is present, so an absent root matches no type. |
| `Arguments.PresentRootFieldsGetBlocks` | src/render.ts:353-363 | Every field of a visible query, mutation or subscription type that is present gets an arguments block in `render.ts`. |
| `Arguments.RootTypeDefs` | src/render.ts:353-361 | The selected types are exactly the visible types the dialect treats as roots. |
| `Arguments.RootTypeDefsAppend` | src/render.ts:353-361 | The root types selected from a concatenation are those selected from each part, in turn. |
| `Arguments.RootTypeDefsOne` | src/render.js:267-268 | A single type is selected once when it is visible and a root for the dialect, and not at all otherwise. |
| `Arguments.RootFieldsAppend` | src/render.ts:361-362 | The fields that get argument interfaces, for a concatenation, are those of each part, in turn. |
| `Arguments.RootFieldsOne` | src/render.js:267-270 | A visible root type contributes all its fields, zero-argument ones included, in declared order; any other type contributes none. |
| `Arguments.RootFieldsAreRootTypeFields` | src/render.ts:362-364 | A field gets an arguments interface exactly when it belongs to a visible root type. |
| `Arguments.ConventionalRootsAgree` | src/render.js:267-268 | With the root names `Query`, `Mutation` and `Subscription`, both renderers select the same fields. |
| `Arguments.ArgTypeName` | src/render.ts:388-404 | `render.ts` writes the table's type of a built-in scalar named at most one wrapper deep, and `any` for everything else. |
| `Arguments.RawTypeName` | src/render.js:280-283 | `render.js` writes the GraphQL name one wrapper deep, and `null` for a wrapper of a wrapper. |
| `Arguments.ArgTypeDialects` | src/render.ts:406-409 | Where `render.ts` writes a scalar type, it is the table's entry for the name `render.js` writes. |
| `Arguments.RenderArg` | src/render.ts:406-409 | An argument line is four spaces, the name, `?` exactly when the argument is nullable, then `: T`. |
| `Arguments.ArgSingleLine` | src/render.js:280-284 | An argument with GraphQL names renders on one line. |
| `Arguments.ArgsBlockLines` | src/render.ts:366-373 | The block's lines are a blank line, `export interface <field>Args {`, then one line per argument (an empty line when there are none), `}`, and an empty line. |
| `Arguments.ArgsBlock` | src/render.ts:366-373 | One field's `<field>Args` block; `ArgsBlockLines` states its lines. |
| `Arguments.RenderArguments` | src/render.ts:353-375 | The argument section; `ArgumentsAppend`, `ArgumentsOne` and `RootFieldsAreRootTypeFields` state which blocks it holds and in what order. |
| `Arguments.ArgumentsAppend` | src/render.js:265-272 | The blocks of a concatenation are those of each part, in turn. |
| `Arguments.ArgumentsOne` | src/render.ts:353-364 | A visible root type gets one block per field, zero-argument fields included, in declared order; any other type gets none. |
| `BlankLines.MatchEnd` | src/render.ts:102 | At a line start, `\s+$` matches the longest run of whitespace that ends at the end of the text or before a line terminator. |
| `BlankLines.ClearBlankLinesKeepsNonBlank` | src/render.js:44 | The replacement removes whitespace only: every other character is kept, in order. |
| `BlankLines.ClearBlankLinesUnchangedIff` | src/render.ts:102 | The text comes out unchanged exactly when no line of it is blank. |
| `Assembly.Sections` | src/render.ts:87-96 | The namespace holds seven sections: types, arguments, input objects, enums, unions, interfaces, default resolvers. |
| `Assembly.InterleaveLines` | src/render.js:33-41 | A template whose later literals are single newlines puts its values one per line after the first literal. |
| `Assembly.NamespaceShape` | src/render.ts:75-97 | The namespace template over any field type and sections is the field type, a blank line, then the sections joined by newlines, none of them re-indented. |
| `Assembly.NamespaceJoinsSections` | src/render.js:21-41 | The `namespace` constant is the field type, a blank line, then the seven sections in order, one after another. |
| `Assembly.RenderContent` | src/render.ts:99-103 | Apart from whitespace, the output is the header, the field type, the sections in template order, and the footer. Clearing blank lines loses nothing else. |
| `Assembly.Render` | src/render.ts:75-103 | The whole output; `NamespaceJoinsSections`, `Sections` and `RenderContent` state its text. |
| `Findings.SetOf` | src/render.js:378-383 | `setOf` yields an object whose own keys are exactly the names given, each mapped to `true`. |
| `Findings.ConstructorTypeDropped` | src/render.js:51-57 | An object type named `constructor` is visible and kept by `render.ts`, yet the `render.js` lookup drops it. |
| `Findings.AsWrittenHides` | src/render.js:9-12 | The lookup as written hides the eight introspection names and every `Object.prototype` member. |
| `Findings.CorrectedKeepsVisible` | src/render.ts:38-47 | With an own-key lookup, `render.js` keeps exactly the types that `render.ts` keeps. |

## Left out

- `src/index.ts`, `src/index.js`, `src/runCli.js`, `src/bin.ts` and `bin/graphql-typewriter.js` are not part of this model. They handle schema building, the introspection query, command-line parsing, files and console output. The introspection result is an input value here.
- The `Options`/`tslint` field of the renderer is stored but never read, so it is not modelled.
- JavaScript `String()` coercion of arbitrary slot values is not modelled. Slots hold text, or the marker, and the only non-text value the renderer substitutes is `undefined`, which `TypeRefs.Str` prints.
- A description is one string, and `""` stands for every falsy description.
- A missing `args` list of a field is not modelled: `src/render.ts:184` reads `field.args.length` before the `|| []` fallback, so the source throws there, while every field here has a sequence of arguments.
- A type literally named `Query`, `Mutation` or `Subscription` whose `fields` is `null` (a scalar or enum of that name) makes `src/render.js:269-276` throw a `TypeError`. That failure is not modelled: `Arguments.RootFields` contributes no fields for it.
- `RenderTag.Indent`, `RenderTag.Source` and `RenderTag.Compose` count columns in characters. JavaScript's `length` and `lastIndexOf` count UTF-16 code units, so text before a slot holding a character outside the Basic Multilingual Plane is one column shorter here than in the source. The renderer only measures columns over names and ASCII literals.
- `Declarations.OfKind`, `Declarations.OfKindOne`, `Declarations.AbstractTypes`, `Declarations.RenderTypename`, `Arguments.RootTypeDefs`, `Arguments.RootTypeDefsOne`, `Arguments.RootFieldsOne` and `Arguments.ConventionalRootsAgree` use `Schema.Visible`, the exact eight-name test of `render.ts`, for both dialects. Under `Js` they therefore compute the corrected behaviour, not the plain-object lookup of `src/render.js:53` and its other sections, which also drops types named after `Object.prototype` members. That as-written lookup is modelled by `Findings.KeptAsWritten`.
- `TypeRefs.RenderType`: the scalar table is a plain object in both sources. A custom scalar named after an `Object.prototype` member (e.g. `toString`) would print that member's text. The model treats such a name as absent from the table.
- `Declarations.RenderEnumValueType`: the contract gives the exact text only for a one-line value name. GraphQL names never contain a newline.
- `Declarations.RenderInterface`: the contract gives the exact text only for a one-line type name.
- `Declarations.RenderInputObject`: the contract gives the exact text only for a one-line type name.
- `Declarations.RenderResolver`: the contract gives the exact text only for a one-line type name.
- `Findings.ObjectPrototypeMembers` lists the members of `Object.prototype` in current engines. It does not cover members that other environments may add.
- Non-string names and a `possibleTypes`/`interfaces` list that is `null` for an object type are not modelled. Lists are always sequences.

## Findings

| source | as written | input that shows it | evidently intended | confidence | as-written member | corrected member |
|---|---|---|---|---|---|---|
| src/render.js:9-12 | `setOf` builds a plain object, and every section skips a type when `introspectionTypes[type.name]` is truthy. The lookup also finds the members every object inherits from `Object.prototype`. | A schema with an object type named `constructor` (a legal GraphQL name). `render.js` emits no declaration for it; `render.ts` does. | Skip only the eight introspection names, as the `Set` in `render.ts` does. | not executed | `Findings.ConstructorTypeDropped` | `Findings.CorrectedKeepsVisible` |
