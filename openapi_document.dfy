/** The OpenAPI renderer's emitters: the components of objects, input objects,
    interfaces and enums, the paths of the root operations, and `renderOpenAPI`
    putting them together (src/renderOpenAPI.js:36-95, 107-190, 242-394). The
    `printer` callback is modelled by returning the printed lines. */
module OpenApiDocument {
  import opened Optional
  import opened Text
  import opened Introspection
  import opened Sorting
  import opened OpenApiTypes
  import MarkdownDocument

  /** The options `renderOpenAPI` reads into its output. An empty `title` or
      `prologue` is what the source treats as not given. */
  datatype Options = Options(title: string, skipTitle: bool, prologue: string)

  /** `options.title || 'Schema'`. */
  function Title(o: Options): string { if o.title != "" then o.title else "Schema" }

  // ---------------------------------------------------------------------------
  // Component properties (`renderObject`)
  // ---------------------------------------------------------------------------

  /** The reference once one NON_NULL wrapper is taken off. */
  function Stripped(t: TypeRef): TypeRef { if t.NonNull? then t.ofType else t }

  /** How a template literal shows a reference's `name`: `null` for a wrapper. */
  function NameText(t: TypeRef): string { OrText(t.RefName(), NullText) }

  /** A `$ref` line pointing into the components. */
  function RefLine(prefix: string, name: string): string { "\"$ref\": \"" + prefix + name + "\"" }

  /** The kinds `renderObject` writes a `$ref` for. */
  predicate IsComponentKind(k: Kind) { k == InputObject || k == Object || k == Enum || k == Interface }

  const ArrayType := "\"type\": \"array\","
  const ItemsOpen := "\"items\": {"
  const Close := "}"

  /** An array schema whose items refer to the element's `name`. */
  function ArrayBody(prefix: string, a: TypeRef): seq<string>
    requires a.List?
  {
    [ArrayType, ItemsOpen, RefLine(prefix, NameText(a.ofType)), Close]
  }

  /** The schema of a property, decided by the kind of its type after one
      NON_NULL is stripped; a union (or a doubly wrapped type) gets none. */
  function PropertyBody(prefix: string, t: TypeRef): seq<string> {
    var a := Stripped(t);
    if a.List? then ArrayBody(prefix, a)
    else if a.Named? && IsComponentKind(a.kind) then [RefLine(prefix, a.name)]
    else if a.Named? && a.kind == Scalar then ["\"type\": \"" + OrText(ScalarTypeName(a.name), UndefinedText) + "\""]
    else []
  }

  function Property(prefix: string, f: Field): seq<string> {
    ["\"" + f.name + "\":{"] + PropertyBody(prefix, f.typ) + [Close]
  }

  function PropertyBlocks(prefix: string, fs: seq<Field>): seq<seq<string>> {
    seq(|fs|, i requires 0 <= i < |fs| => Property(prefix, fs[i]))
  }

  /** The `$ref` of a named type the map holds is the pointer `getTypeURL`
      gives for it, whatever the fallback. */
  lemma RefIsTypeURL(tm: TypeMap, fb: Links.Fallback, title: string, k: Kind, n: string)
    requires n in tm
    ensures var url := GetTypeURL(tm, fb, title, Named(k, n));
      url.Text? && RefLine(ComponentsPrefix(title), n) == "\"$ref\": \"" + url.text + "\""
  {
  }

  /** What each kind of property type gets: an array of references for a
      list (to `null` when the element is itself wrapped), a reference for a
      component kind, a JSON type for a scalar (`undefined` for one the table
      does not know), and no schema for a union; NON_NULL does not matter. */
  lemma PropertyBodyByKind(prefix: string, t: TypeRef)
    ensures PropertyBody(prefix, NonNull(t)) == PropertyBody(prefix, t) || t.NonNull?
    ensures t.List? ==> PropertyBody(prefix, t)[2] == RefLine(prefix, if t.ofType.Named? then t.ofType.name else "null")
    ensures t.Named? && IsComponentKind(t.kind) ==> PropertyBody(prefix, t) == [RefLine(prefix, t.name)]
    ensures t.Named? && t.kind == Scalar && t.name !in BuiltinScalars ==> PropertyBody(prefix, t) == ["\"type\": \"undefined\""]
    ensures t.Named? && t.kind == Union ==> PropertyBody(prefix, t) == []
  {
    ScalarTypeTable();
    assert "\"type\": \"" + UndefinedText + "\"" == "\"type\": \"undefined\"";
  }

  /** The properties, one `{ ... }` block per field, a comma line between. */
  method RenderProperties(prefix: string, fields: seq<Field>) returns (lines: seq<string>)
    ensures lines == Separated(PropertyBlocks(prefix, fields), ",")
  {
    ghost var blocks := PropertyBlocks(prefix, fields);
    lines := [];
    for index := 0 to |fields|
      invariant lines == SeparatedUpTo(blocks, ",", index)
    {
      var field := fields[index];
      var argType := field.typ;
      if argType.NonNull? {
        argType := argType.ofType;
      }
      var body: seq<string>;
      if argType.List? {
        body := [ArrayType, ItemsOpen, RefLine(prefix, NameText(argType.ofType)), Close];
      } else if argType.Named? && IsComponentKind(argType.kind) {
        body := [RefLine(prefix, argType.name)];
      } else if argType.Named? && argType.kind == Scalar {
        body := ["\"type\": \"" + OrText(ScalarTypeName(argType.name), UndefinedText) + "\""];
      } else {
        body := [];
      }
      var block := ["\"" + field.name + "\":{"] + body + [Close];
      assert block == blocks[index];
      lines := lines + block;
      ghost var printed := lines;
      if index < |fields| - 1 {
        lines := lines + [","];
      }
      assert lines == printed + (if index + 1 < |blocks| then [","] else []);
    }
  }

  // ---------------------------------------------------------------------------
  // Required lists
  // ---------------------------------------------------------------------------

  /** A NON_NULL field or argument. */
  predicate Required(f: Field) { f.typ.NonNull? }

  /** The quoted names of the required entries among the first `k`, in order. */
  function RequiredNames(fs: seq<Field>, k: nat): seq<string>
    requires k <= |fs|
  {
    if k == 0 then [] else RequiredNames(fs, k - 1) + (if Required(fs[k - 1]) then [Quote(fs[k - 1].name)] else [])
  }

  /** `detectNextField` after `k` rounds: a required entry among the first `k`. */
  predicate AnyRequired(fs: seq<Field>, k: nat)
    requires k <= |fs|
  {
    k > 0 && (AnyRequired(fs, k - 1) || Required(fs[k - 1]))
  }

  /** A name is listed exactly when a required entry was seen. */
  lemma {:induction false} RequiredNamesPresent(fs: seq<Field>, k: nat)
    requires k <= |fs|
    ensures |RequiredNames(fs, k)| > 0 <==> AnyRequired(fs, k)
  {
    if k > 0 {
      RequiredNamesPresent(fs, k - 1);
    }
  }

  /** The names listed are those of the required entries. */
  lemma {:induction false} RequiredNamesListed(fs: seq<Field>, k: nat)
    requires k <= |fs|
    ensures forall x :: x in RequiredNames(fs, k) <==> exists i :: 0 <= i < k && Required(fs[i]) && x == Quote(fs[i].name)
  {
    if k > 0 {
      RequiredNamesListed(fs, k - 1);
    }
  }

  /** What the `required` loop of `renderObject` prints in its first `k`
      rounds: each required name, and a comma after round `k` when a required
      name was already printed and the next entry is required. */
  function RequiredLines(fs: seq<Field>, k: nat): seq<string>
    requires k <= |fs|
  {
    if k == 0 then []
    else
      RequiredLines(fs, k - 1) + (if Required(fs[k - 1]) then [Quote(fs[k - 1].name)] else [])
      + (if AnyRequired(fs, k) && k < |fs| && Required(fs[k]) then [","] else [])
  }

  lemma {:induction false} RequiredLinesUpTo(fs: seq<Field>, k: nat)
    requires k <= |fs|
    ensures RequiredLines(fs, k)
         == Interleave(RequiredNames(fs, k), ",") + (if AnyRequired(fs, k) && k < |fs| && Required(fs[k]) then [","] else [])
  {
    if k > 0 {
      var j := k - 1;
      RequiredLinesUpTo(fs, j);
      RequiredNamesPresent(fs, j);
      var names := RequiredNames(fs, j);
      var tail := if AnyRequired(fs, k) && k < |fs| && Required(fs[k]) then [","] else [];
      if Required(fs[j]) {
        var q := Quote(fs[j].name);
        assert RequiredLines(fs, j) == Interleave(names, ",") + (if |names| > 0 then [","] else []);
        assert RequiredLines(fs, k) == RequiredLines(fs, j) + [q] + tail;
        assert RequiredNames(fs, k) == names + [q];
        InterleaveSnoc(names, q, ",");
      } else {
        assert RequiredLines(fs, j) == Interleave(names, ",");
        assert RequiredLines(fs, k) == RequiredLines(fs, j) + tail;
        assert RequiredNames(fs, k) == names;
      }
    }
  }

  /** The component's required list is the required names with commas
      between: `detectNextField` keeps a comma from coming first. */
  lemma ObjectRequiredIsCommaSeparated(fs: seq<Field>)
    ensures RequiredLines(fs, |fs|) == Interleave(RequiredNames(fs, |fs|), ",")
  {
    RequiredLinesUpTo(fs, |fs|);
  }

  /** The `required` loop of `renderObject`. */
  method RenderRequired(fields: seq<Field>) returns (lines: seq<string>)
    ensures lines == RequiredLines(fields, |fields|)
  {
    lines := [];
    var detectNextField := false;
    for index := 0 to |fields|
      invariant detectNextField == AnyRequired(fields, index)
      invariant lines == RequiredLines(fields, index)
    {
      var field := fields[index];
      ghost var before := lines;
      if field.typ.NonNull? {
        lines := lines + [Quote(field.name)];
        detectNextField := true;
      }
      assert lines == before + (if Required(fields[index]) then [Quote(fields[index].name)] else []);
      ghost var named := lines;
      if detectNextField && index < |fields| - 1 {
        var nextField := fields[index + 1];
        if nextField.typ.NonNull? {
          lines := lines + [","];
        }
      }
      assert lines == named + (if AnyRequired(fields, index + 1) && index + 1 < |fields| && Required(fields[index + 1]) then [","] else []);
    }
  }

  /** What the `required` loop of `renderApi`, which has no
      `detectNextField`, prints in its first `k` rounds: a comma after round
      `k` whenever the next argument is required. */
  function ArgRequiredLines(args: seq<Field>, k: nat): seq<string>
    requires k <= |args|
  {
    if k == 0 then []
    else
      ArgRequiredLines(args, k - 1) + (if Required(args[k - 1]) then [Quote(args[k - 1].name)] else [])
      + (if k < |args| && Required(args[k]) then [","] else [])
  }

  /** The comma the argument loop prints before the first required name: the
      first argument is optional and a required one has been seen. */
  predicate StrayComma(args: seq<Field>, k: nat)
    requires k <= |args|
  {
    k > 0 && !Required(args[0]) && AnyRequired(args, k)
  }

  /** The argument lines of the first `k` rounds: the required names with
      commas between, a stray comma in front once an optional first argument
      is followed by a required one, and a trailing comma when the next
      argument is required. */
  lemma {:induction false} ArgRequiredLinesUpTo(args: seq<Field>, k: nat)
    requires k <= |args|
    ensures ArgRequiredLines(args, k)
         == (if StrayComma(args, k) then [","] else []) + Interleave(RequiredNames(args, k), ",")
          + (if 0 < k < |args| && Required(args[k]) then [","] else [])
  {
    if k > 0 {
      ArgRequiredLinesUpTo(args, k - 1);
      RequiredNamesPresent(args, k - 1);
      if Required(args[k - 1]) {
        ArgRequiredRoundRequired(args, k);
      } else {
        ArgRequiredRoundOptional(args, k);
      }
    }
  }

  /** One round of the argument loop on a required argument. */
  lemma ArgRequiredRoundRequired(args: seq<Field>, k: nat)
    requires 0 < k <= |args| && Required(args[k - 1])
    requires ArgRequiredLines(args, k - 1)
          == (if StrayComma(args, k - 1) then [","] else []) + Interleave(RequiredNames(args, k - 1), ",")
           + (if 0 < k - 1 && Required(args[k - 1]) then [","] else [])
    requires |RequiredNames(args, k - 1)| > 0 <==> AnyRequired(args, k - 1)
    ensures ArgRequiredLines(args, k)
         == (if StrayComma(args, k) then [","] else []) + Interleave(RequiredNames(args, k), ",")
          + (if 0 < k < |args| && Required(args[k]) then [","] else [])
  {
    var j := k - 1;
    var names := RequiredNames(args, j);
    var stray := if StrayComma(args, j) then [","] else [];
    var tail := if k < |args| && Required(args[k]) then [","] else [];
    var q := Quote(args[j].name);
    assert RequiredNames(args, k) == names + [q];
    assert ArgRequiredLines(args, k) == ArgRequiredLines(args, j) + [q] + tail;
    InterleaveSnoc(names, q, ",");
    if j == 0 {
      assert ArgRequiredLines(args, j) == [] && names == [];
      assert !StrayComma(args, k);
      assert Interleave([q], ",") == [q];
      assert ArgRequiredLines(args, k) == [] + Interleave(names + [q], ",") + tail;
    } else if |names| > 0 {
      assert ArgRequiredLines(args, j) == stray + Interleave(names, ",") + [","];
      assert StrayComma(args, k) == StrayComma(args, j);
      Associative(stray, Interleave(names, ","), [","], [q]);
    } else {
      FirstRequired(args, j);
      assert ArgRequiredLines(args, j) == [","];
      assert StrayComma(args, k);
      assert names + [q] == [q];
      assert Interleave([q], ",") == [q];
      assert ArgRequiredLines(args, k) == [","] + Interleave(names + [q], ",") + tail;
    }
  }

  /** One round of the argument loop on an optional argument. */
  lemma ArgRequiredRoundOptional(args: seq<Field>, k: nat)
    requires 0 < k <= |args| && !Required(args[k - 1])
    requires ArgRequiredLines(args, k - 1)
          == (if StrayComma(args, k - 1) then [","] else []) + Interleave(RequiredNames(args, k - 1), ",")
           + (if 0 < k - 1 && Required(args[k - 1]) then [","] else [])
    ensures ArgRequiredLines(args, k)
         == (if StrayComma(args, k) then [","] else []) + Interleave(RequiredNames(args, k), ",")
          + (if 0 < k < |args| && Required(args[k]) then [","] else [])
  {
    var j := k - 1;
    var names := RequiredNames(args, j);
    var stray := if StrayComma(args, j) then [","] else [];
    var tail := if k < |args| && Required(args[k]) then [","] else [];
    assert ArgRequiredLines(args, j) == stray + Interleave(names, ",");
    assert ArgRequiredLines(args, k) == ArgRequiredLines(args, j) + tail;
    assert RequiredNames(args, k) == names;
    assert AnyRequired(args, k) == AnyRequired(args, j);
    assert StrayComma(args, k) == StrayComma(args, j);
  }

  /** A required first entry is seen in every later round. */
  lemma {:induction false} FirstRequired(args: seq<Field>, k: nat)
    requires 0 < k <= |args|
    ensures Required(args[0]) ==> AnyRequired(args, k)
  {
    if k > 1 {
      FirstRequired(args, k - 1);
    }
  }

  /** The argument list is the required names with commas between, except
      that it opens with a comma when the first argument is optional and a
      later one is required: `[ , "b" ]`, which is not JSON. */
  lemma ArgRequiredStrayComma(args: seq<Field>)
    ensures var names := RequiredNames(args, |args|);
      ArgRequiredLines(args, |args|)
      == (if |args| > 0 && !Required(args[0]) && |names| > 0 then [","] else []) + Interleave(names, ",")
  {
    ArgRequiredLinesUpTo(args, |args|);
    RequiredNamesPresent(args, |args|);
  }

  /** The argument `required` loop of `renderApi`. */
  method RenderArgRequired(args: seq<Field>) returns (lines: seq<string>)
    ensures lines == ArgRequiredLines(args, |args|)
  {
    lines := [];
    for i := 0 to |args|
      invariant lines == ArgRequiredLines(args, i)
    {
      var arg := args[i];
      ghost var before := lines;
      if arg.typ.NonNull? {
        lines := lines + [Quote(arg.name)];
      }
      assert lines == before + (if Required(args[i]) then [Quote(args[i].name)] else []);
      ghost var named := lines;
      if i < |args| - 1 {
        var nextArg := args[i + 1];
        if nextArg.typ.NonNull? {
          lines := lines + [","];
        }
      }
      assert lines == named + (if i + 1 < |args| && Required(args[i + 1]) then [","] else []);
    }
  }

  // ---------------------------------------------------------------------------
  // Object components
  // ---------------------------------------------------------------------------

  const ObjectOpen := "\":{\"type\":\"object\",\"properties\":{"
  const RequiredHead := "},\"required\":["
  const ObjectTail := ["]", "}"]

  /** The component's key and the opening of its `properties`. */
  function ObjectHead(name: string): string { "\"" + name + ObjectOpen }

  /** What `renderObject` prints for a type with a field list. */
  function ObjectComponent(prefix: string, def: TypeDef): seq<string>
    requires FieldList(def, def.kind).Some?
  {
    var fs := FieldList(def, def.kind).value;
    [ObjectHead(def.name)] + Separated(PropertyBlocks(prefix, fs), ",")
    + [RequiredHead] + RequiredLines(fs, |fs|) + ObjectTail
  }

  /** `renderObject(type, { title, printer, ... })`. */
  method RenderObject(prefix: string, def: TypeDef) returns (lines: seq<string>)
    requires FieldList(def, def.kind).Some?
    ensures lines == ObjectComponent(prefix, def)
  {
    var fields := FieldList(def, def.kind).value;
    var properties := RenderProperties(prefix, fields);
    var required := RenderRequired(fields);
    lines := [ObjectHead(def.name)] + properties + [RequiredHead] + required + ObjectTail;
  }

  /** A component lists one property per field, comma-separated, and then
      the names of the required fields, comma-separated. */
  lemma ObjectComponentLayout(prefix: string, def: TypeDef)
    requires FieldList(def, def.kind).Some?
    ensures var fs := FieldList(def, def.kind).value;
      var p := Joined(PropertyBlocks(prefix, fs), [","]);
      ObjectComponent(prefix, def)
      == [ObjectHead(def.name)] + p + [RequiredHead]
       + Interleave(RequiredNames(fs, |fs|), ",") + ObjectTail
  {
    var fs := FieldList(def, def.kind).value;
    SeparatedIsJoined(PropertyBlocks(prefix, fs), ",");
    ObjectRequiredIsCommaSeparated(fs);
  }

  // ---------------------------------------------------------------------------
  // Paths (`renderApi`)
  // ---------------------------------------------------------------------------

  /** `type.name === 'Query' ? 'post' : 'get'`. */
  function Verb(root: TypeDef): (r: string)
    ensures r == "post" <==> root.name == "Query"
    ensures r == "get" <==> root.name != "Query"
  {
    if root.name == "Query" then "post" else "get"
  }

  /** The two renderers disagree on the verb: the Markdown one writes GET for
      the query root and POST otherwise, this one the other way round. */
  lemma VerbsDisagree(root: TypeDef)
    ensures Verb(root) == (if MarkdownDocument.Verb(root) == "GET" then "post" else "get")
  {
  }

  /** The first lines of an operation: path, verb, summary and description. */
  function ApiHead(title: string, root: TypeDef, f: Field): seq<string>
    requires |f.name| > 0
  {
    var d := OpenApiTypes.ToDescription(f.name);
    ["\"/" + f.name + "\":{", "\"" + Verb(root) + "\":{", "\"summary\": \"" + d + "\",", "\"deprecated\": false,",
     "\"description\": \"" + d + "\",", "\"tags\": [\"" + LowerAll(title) + "\"],", "\"parameters\": [],"]
  }

  /** The schema of an argument: an array of references for a list, a
      reference (by the type's `name`, scalars included) otherwise. */
  function ArgBody(prefix: string, t: TypeRef): seq<string> {
    var a := Stripped(t);
    if a.List? then ArrayBody(prefix, a) else [RefLine(prefix, NameText(a))]
  }

  function ArgProperty(prefix: string, arg: Field): seq<string> {
    ["\"" + arg.name + "\": {"] + ArgBody(prefix, arg.typ) + [Close]
  }

  function ArgBlocks(prefix: string, args: seq<Field>): seq<seq<string>> {
    seq(|args|, i requires 0 <= i < |args| => ArgProperty(prefix, args[i]))
  }

  const RequestBodyOpen := "\"requestBody\": {\"content\": {\"application/json\": {\"schema\": {\"type\": \"object\",\"properties\": {"
  const ArgRequiredHead := ["},", "\"required\": ["]
  const RequestBodyTail := ["]", "}}}},"]

  /** The request body: printed exactly when the root is not an input object
      and the field has arguments. */
  function RequestBody(prefix: string, root: TypeDef, f: Field): seq<string> {
    if HasRequestBody(root, f) then
      [RequestBodyOpen] + Separated(ArgBlocks(prefix, f.args), ",") + ArgRequiredHead
      + ArgRequiredLines(f.args, |f.args|) + RequestBodyTail
    else []
  }

  const ResponsesHead := ["\"responses\": {\"200\": {\"description\": \"Success\",",
    "\"content\": {\"application/json\": {\"schema\": {\"type\": \"object\",\"properties\": {",
    "\"code\": { \"type\": \"string\"},", "\"message\": { \"type\": \"string\"},",
    "\"isSuccess\": { \"type\": \"boolean\"},", "\"result\": {"]
  const ResponsesTail := ["}", "}}}}", "}}}}"]

  /** The response schema, whose `result` refers to the field type's `name`. */
  function Responses(prefix: string, f: Field): seq<string> {
    ResponsesHead + [RefLine(prefix, NameText(f.typ))] + ResponsesTail
  }

  /** Everything `renderApi` prints for one field, before the comma. */
  function ApiBlock(title: string, root: TypeDef, f: Field): seq<string>
    requires |f.name| > 0
  {
    ApiHead(title, root, f) + RequestBody(ComponentsPrefix(title), root, f) + Responses(ComponentsPrefix(title), f)
  }

  /** The result refers to the field's type by name only when that type is
      neither NON_NULL nor LIST; a required or list result refers to `null`. */
  lemma ResultRef(title: string, root: TypeDef, f: Field)
    requires |f.name| > 0
    ensures var b := ApiBlock(title, root, f);
      var r := |ApiHead(title, root, f)| + |RequestBody(ComponentsPrefix(title), root, f)| + |ResponsesHead|;
      r < |b| && b[r] == RefLine(ComponentsPrefix(title), if f.typ.Named? then f.typ.name else "null")
  {
  }

  /** The request body has one property per argument, comma-separated, and
      the required list of `ArgRequiredStrayComma`. */
  lemma RequestBodyLayout(prefix: string, root: TypeDef, f: Field)
    ensures |RequestBody(prefix, root, f)| > 0 <==> HasRequestBody(root, f)
    ensures HasRequestBody(root, f) ==>
      RequestBody(prefix, root, f)
      == [RequestBodyOpen] + Joined(ArgBlocks(prefix, f.args), [","]) + ArgRequiredHead
       + ArgRequiredLines(f.args, |f.args|) + RequestBodyTail
  {
    SeparatedIsJoined(ArgBlocks(prefix, f.args), ",");
  }

  /** The properties of the request body, comma-separated. */
  method RenderArgProperties(prefix: string, args: seq<Field>) returns (lines: seq<string>)
    ensures lines == Separated(ArgBlocks(prefix, args), ",")
  {
    ghost var blocks := ArgBlocks(prefix, args);
    lines := [];
    for i := 0 to |args|
      invariant lines == SeparatedUpTo(blocks, ",", i)
    {
      var arg := args[i];
      var argType := arg.typ;
      if argType.NonNull? {
        argType := argType.ofType;
      }
      var body: seq<string>;
      if argType.List? {
        body := [ArrayType, ItemsOpen, RefLine(prefix, NameText(argType.ofType)), Close];
      } else {
        body := [RefLine(prefix, NameText(argType))];
      }
      var block := ["\"" + arg.name + "\": {"] + body + [Close];
      assert block == blocks[i];
      lines := lines + block;
      ghost var printed := lines;
      if i < |args| - 1 {
        lines := lines + [","];
      }
      assert lines == printed + (if i + 1 < |blocks| then [","] else []);
    }
  }

  method RenderRequestBody(prefix: string, root: TypeDef, field: Field) returns (lines: seq<string>)
    ensures lines == RequestBody(prefix, root, field)
  {
    var isInputObject := root.kind == InputObject;
    lines := [];
    if !isInputObject && |field.args| > 0 {
      var properties := RenderArgProperties(prefix, field.args);
      var required := RenderArgRequired(field.args);
      lines := [RequestBodyOpen] + properties + ArgRequiredHead + required + RequestBodyTail;
    }
  }

  /** The `fields.forEach(field => ...)` body of `renderApi`, before the comma. */
  method RenderApiField(title: string, root: TypeDef, field: Field) returns (lines: seq<string>)
    requires |field.name| > 0
    ensures lines == ApiBlock(title, root, field)
  {
    var prefix := "#/components/" + LowerAll(title) + "/";
    var description := OpenApiTypes.ToDescription(field.name);
    lines := ["\"/" + field.name + "\":{", "\"" + (if root.name == "Query" then "post" else "get") + "\":{",
      "\"summary\": \"" + description + "\",", "\"deprecated\": false,", "\"description\": \"" + description + "\",",
      "\"tags\": [\"" + LowerAll(title) + "\"],", "\"parameters\": [],"];
    var body := RenderRequestBody(prefix, root, field);
    lines := lines + body;
    lines := lines + (ResponsesHead + [RefLine(prefix, NameText(field.typ))] + ResponsesTail);
  }

  /** Every field has a name for `toDescription`. */
  predicate FieldsNamed(fs: seq<Field>) { forall i :: 0 <= i < |fs| ==> |fs[i].name| > 0 }

  /** A root `renderApi` can render: it has a field list of named fields. */
  predicate ApiRenderable(root: TypeDef) {
    FieldList(root, root.kind).Some? && FieldsNamed(FieldList(root, root.kind).value)
  }

  function PathBlocks(title: string, root: TypeDef, fs: seq<Field>): seq<seq<string>>
    requires FieldsNamed(fs)
  {
    seq(|fs|, i requires 0 <= i < |fs| && |fs[i].name| > 0 => ApiBlock(title, root, fs[i]))
  }

  /** What `renderApi(root, ...)` prints: the fields' blocks, comma-separated. */
  function Paths(title: string, root: TypeDef): seq<string>
    requires ApiRenderable(root)
  {
    Separated(PathBlocks(title, root, FieldList(root, root.kind).value), ",")
  }

  method RenderApi(title: string, root: TypeDef) returns (lines: seq<string>)
    requires ApiRenderable(root)
    ensures lines == Paths(title, root)
  {
    var fields := FieldList(root, root.kind).value;
    ghost var blocks := PathBlocks(title, root, fields);
    lines := [];
    for index := 0 to |fields|
      invariant lines == SeparatedUpTo(blocks, ",", index)
    {
      var block := RenderApiField(title, root, fields[index]);
      lines := lines + block;
      ghost var printed := lines;
      if index < |fields| - 1 {
        lines := lines + [","];
      }
      assert lines == printed + (if index + 1 < |blocks| then [","] else []);
    }
  }

  // ---------------------------------------------------------------------------
  // Enum components
  // ---------------------------------------------------------------------------

  function ValueBlocks(vs: seq<EnumValue>): seq<seq<string>> {
    seq(|vs|, i requires 0 <= i < |vs| => [Quote(vs[i].name)])
  }

  function QuotedValues(vs: seq<EnumValue>): seq<string> {
    seq(|vs|, i requires 0 <= i < |vs| => Quote(vs[i].name))
  }

  const EnumType := "            \"type\": \"string\","
  const EnumOpen := "            \"enum\": ["
  const EnumTail := ["            ]", "        }"]

  /** What the enum loop of `renderOpenAPI` prints for one enum. */
  function EnumComponent(def: TypeDef): seq<string>
    requires def.enumValues.Some?
  {
    ["        \"" + def.name + "\": {", EnumType, EnumOpen] + Separated(ValueBlocks(def.enumValues.value), ",") + EnumTail
  }

  /** The enum lists its values, quoted, in order, with commas between. */
  lemma EnumValuesInterleaved(vs: seq<EnumValue>)
    ensures Separated(ValueBlocks(vs), ",") == Interleave(QuotedValues(vs), ",")
  {
    var q := QuotedValues(vs);
    assert ValueBlocks(vs) == seq(|q|, i requires 0 <= i < |q| => [q[i]]);
    SeparatedSingletons(q, ",");
  }

  method RenderEnumComponent(def: TypeDef) returns (lines: seq<string>)
    requires def.enumValues.Some?
    ensures lines == EnumComponent(def)
  {
    var values := def.enumValues.value;
    ghost var blocks := ValueBlocks(values);
    lines := ["        \"" + def.name + "\": {", EnumType, EnumOpen];
    ghost var header := lines;
    for index := 0 to |values|
      invariant lines == header + SeparatedUpTo(blocks, ",", index)
    {
      lines := lines + [Quote(values[index].name)];
      ghost var printed := lines;
      if index < |values| - 1 {
        lines := lines + [","];
      }
      assert lines == printed + (if index + 1 < |blocks| then [","] else []);
    }
    lines := lines + EnumTail;
  }

  // ---------------------------------------------------------------------------
  // Component groups
  // ---------------------------------------------------------------------------

  predicate AllHaveFieldLists(defs: seq<TypeDef>) { forall i :: 0 <= i < |defs| ==> FieldList(defs[i], defs[i].kind).Some? }

  predicate AllHaveValues(defs: seq<TypeDef>) { forall i :: 0 <= i < |defs| ==> defs[i].enumValues.Some? }

  function ObjectBlocks(prefix: string, defs: seq<TypeDef>): seq<seq<string>>
    requires AllHaveFieldLists(defs)
  {
    seq(|defs|, i requires 0 <= i < |defs| && FieldList(defs[i], defs[i].kind).Some? => ObjectComponent(prefix, defs[i]))
  }

  function EnumBlocks(defs: seq<TypeDef>): seq<seq<string>>
    requires AllHaveValues(defs)
  {
    seq(|defs|, i requires 0 <= i < |defs| && defs[i].enumValues.Some? => EnumComponent(defs[i]))
  }

  /** The `forEach((type, index) => ...)` loop over one group of object-like
      types: each component, and a comma after all but the last. */
  method RenderObjectGroup(prefix: string, defs: seq<TypeDef>) returns (lines: seq<string>)
    requires AllHaveFieldLists(defs)
    ensures lines == Separated(ObjectBlocks(prefix, defs), ",")
  {
    ghost var blocks := ObjectBlocks(prefix, defs);
    assert |blocks| == |defs|;
    lines := [];
    for index := 0 to |defs|
      invariant lines == SeparatedUpTo(blocks, ",", index)
    {
      var entry := RenderObjectEntry(prefix, defs, index);
      lines := lines + entry;
    }
  }

  /** One round of that loop. */
  method RenderObjectEntry(prefix: string, defs: seq<TypeDef>, index: nat) returns (lines: seq<string>)
    requires AllHaveFieldLists(defs) && index < |defs|
    ensures lines == ObjectBlocks(prefix, defs)[index] + (if index + 1 < |defs| then [","] else [])
  {
    lines := RenderObject(prefix, defs[index]);
    if index < |defs| - 1 {
      lines := lines + [","];
    }
  }

  /** The loop over the enums, with the same commas. */
  method RenderEnumGroup(defs: seq<TypeDef>) returns (lines: seq<string>)
    requires AllHaveValues(defs)
    ensures lines == Separated(EnumBlocks(defs), ",")
  {
    ghost var blocks := EnumBlocks(defs);
    assert |blocks| == |defs|;
    lines := [];
    for index := 0 to |defs|
      invariant lines == SeparatedUpTo(blocks, ",", index)
    {
      var entry := RenderEnumEntry(defs, index);
      lines := lines + entry;
    }
  }

  /** One round of the enum loop. */
  method RenderEnumEntry(defs: seq<TypeDef>, index: nat) returns (lines: seq<string>)
    requires AllHaveValues(defs) && index < |defs|
    ensures lines == EnumBlocks(defs)[index] + (if index + 1 < |defs| then [","] else [])
  {
    lines := RenderEnumComponent(defs[index]);
    if index < |defs| - 1 {
      lines := lines + [","];
    }
  }

  /** The sorted buckets `renderOpenAPI` prints components for. */
  datatype Buckets = Buckets(objects: seq<TypeDef>, inputs: seq<TypeDef>, enums: seq<TypeDef>, interfaces: seq<TypeDef>)

  predicate BucketsRenderable(b: Buckets) {
    AllHaveFieldLists(b.objects) && AllHaveFieldLists(b.inputs) && AllHaveValues(b.enums) && AllHaveFieldLists(b.interfaces)
  }

  /** A group after the first: ` ,` and its blocks, when it has any. */
  function LaterGroup(blocks: seq<seq<string>>): seq<string> {
    if |blocks| > 0 then [" ,"] + Separated(blocks, ",") else []
  }

  /** The components inside `"<title>": { ... }`: objects, then input
      objects, enums and interfaces, each later group opened by ` ,`. */
  function Components(prefix: string, b: Buckets): seq<string>
    requires BucketsRenderable(b)
  {
    Separated(ObjectBlocks(prefix, b.objects), ",") + LaterGroup(ObjectBlocks(prefix, b.inputs))
    + LaterGroup(EnumBlocks(b.enums)) + LaterGroup(ObjectBlocks(prefix, b.interfaces))
  }

  method RenderComponents(prefix: string, b: Buckets) returns (lines: seq<string>)
    requires BucketsRenderable(b)
    ensures lines == Components(prefix, b)
  {
    lines := RenderObjectGroup(prefix, b.objects);
    if |b.inputs| > 0 {
      var group := RenderObjectGroup(prefix, b.inputs);
      lines := lines + ([" ,"] + group);
    }
    assert lines == Separated(ObjectBlocks(prefix, b.objects), ",") + LaterGroup(ObjectBlocks(prefix, b.inputs));
    ghost var before := lines;
    if |b.enums| > 0 {
      var group := RenderEnumGroup(b.enums);
      lines := lines + ([" ,"] + group);
    }
    assert lines == before + LaterGroup(EnumBlocks(b.enums));
    before := lines;
    if |b.interfaces| > 0 {
      var group := RenderObjectGroup(prefix, b.interfaces);
      lines := lines + ([" ,"] + group);
    }
    assert lines == before + LaterGroup(ObjectBlocks(prefix, b.interfaces));
  }

  /** The components open with a stray ` ,` exactly when there is no object
      component but a later group has one: `"schema": { ,` is not JSON. */
  lemma ComponentsStraySeparator(prefix: string, b: Buckets)
    requires BucketsRenderable(b)
    ensures var c := Components(prefix, b);
      (|c| > 0 && c[0] == " ,") <==> |b.objects| == 0 && (|b.inputs| > 0 || |b.enums| > 0 || |b.interfaces| > 0)
  {
    if |b.objects| > 0 {
      var blocks := ObjectBlocks(prefix, b.objects);
      SeparatedFirst(blocks, ",");
      assert blocks[0][0] != " ," by {
        assert blocks[0][0][0] == '"';
      }
    }
  }

  // ---------------------------------------------------------------------------
  // renderOpenAPI
  // ---------------------------------------------------------------------------

  /** What the sorted buckets of the visible types `v` are: each is its
      filter result under the stable sort by name (`Sorting.StableSortSpec`);
      the roots are not among the objects. */
  predicate SortedBuckets(v: seq<TypeDef>, q: Option<nat>, m: Option<nat>, b: Buckets) {
    && b.objects == StableSort(Bucket(v, Object, Roots(q, m)))
    && b.inputs == StableSort(Bucket(v, InputObject, {}))
    && b.enums == StableSort(Bucket(v, Enum, {}))
    && b.interfaces == StableSort(Bucket(v, Interface, {}))
  }

  /** Every visible type of a printed bucket can be printed. */
  predicate TypesRenderable(v: seq<TypeDef>) {
    && (forall t :: t in v && (t.kind == Object || t.kind == InputObject || t.kind == Interface) ==> FieldList(t, t.kind).Some?)
    && (forall t :: t in v && t.kind == Enum ==> t.enumValues.Some?)
  }

  /** A root found in `v` whose paths can be rendered. */
  predicate RootRenderable(v: seq<TypeDef>, r: Option<nat>) {
    r.Some? ==> r.value < |v| && ApiRenderable(v[r.value])
  }

  predicate SchemaRenderable(s: Schema) {
    var v := Visible(s.types);
    TypesRenderable(v) && RootRenderable(v, FindRoot(v, s.queryType)) && RootRenderable(v, FindRoot(v, s.mutationType))
  }

  const InfoOpen := ["{", "    \"openapi\": \"3.0.1\",", "    \"info\": {"]

  /** The `description` of the info object: the prologue, or empty. */
  function DescriptionLine(prologue: string): string { "        \"description\": \"" + prologue + "\"," }

  /** The document's opening lines, up to `"paths": {`. */
  function Header(o: Options): seq<string> {
    var title := Title(o);
    InfoOpen + (if o.skipTitle then [] else ["    \"title\": \"" + title + "\","])
    + [DescriptionLine(o.prologue), "        \"version\": \"1.0.0\"", "},\"tags\": [\"" + LowerAll(title) + "\"],", "  \"paths\": {"]
  }

  /** The query's paths, then ` ,` and the mutation's paths. */
  function PathsPart(title: string, v: seq<TypeDef>, q: Option<nat>, m: Option<nat>): seq<string>
    requires RootRenderable(v, q) && RootRenderable(v, m)
  {
    (if q.Some? then Paths(title, v[q.value]) else [])
    + (if m.Some? then [" ,"] + Paths(title, v[m.value]) else [])
  }

  /** The paths open with a stray ` ,` exactly when there is a mutation root
      but no query path before it (no query root, or one without fields). */
  lemma PathsStraySeparator(title: string, v: seq<TypeDef>, q: Option<nat>, m: Option<nat>)
    requires RootRenderable(v, q) && RootRenderable(v, m)
    ensures var p := PathsPart(title, v, q, m);
      (|p| > 0 && p[0] == " ,") <==> m.Some? && (q.None? || |FieldList(v[q.value], v[q.value].kind).value| == 0)
  {
    if q.Some? && |FieldList(v[q.value], v[q.value].kind).value| > 0 {
      var root := v[q.value];
      var blocks := PathBlocks(title, root, FieldList(root, root.kind).value);
      SeparatedFirst(blocks, ",");
      assert blocks[0][0] != " ," by {
        assert blocks[0][0][0] == '"';
      }
    }
  }

  /** Everything after the paths. */
  function ComponentsPart(o: Options, b: Buckets): seq<string>
    requires BucketsRenderable(b)
  {
    var title := Title(o);
    ["  },", "  \"components\": {", "    \"" + LowerAll(title) + "\": {"]
    + Components(ComponentsPrefix(title), b) + ["    }", "  }", "}"]
  }

  /** The whole document for given sorted buckets. */
  function Document(o: Options, s: Schema, b: Buckets): seq<string>
    requires SchemaRenderable(s) && BucketsRenderable(b)
  {
    var v := Visible(s.types);
    Header(o) + PathsPart(Title(o), v, FindRoot(v, s.queryType), FindRoot(v, s.mutationType)) + ComponentsPart(o, b)
  }

  /** The filters and `sortBy` calls of `renderOpenAPI` whose buckets are
      printed. */
  method SortBuckets(v: seq<TypeDef>, query: Option<nat>, mutation: Option<nat>) returns (b: Buckets)
    requires TypesRenderable(v)
    ensures SortedBuckets(v, query, mutation, b) && BucketsRenderable(b)
  {
    var objects := SortedCopy(Bucket(v, Object, Roots(query, mutation)));
    var inputs := SortedCopy(Bucket(v, InputObject, {}));
    var enums := SortedCopy(Bucket(v, Enum, {}));
    var interfaces := SortedCopy(Bucket(v, Interface, {}));
    b := Buckets(objects, inputs, enums, interfaces);
    BucketMembers(v, Object, Roots(query, mutation), objects);
    BucketMembers(v, InputObject, {}, inputs);
    BucketMembers(v, Enum, {}, enums);
    BucketMembers(v, Interface, {}, interfaces);
  }

  /** `if (prologue) ... else ...`: both branches print the same line. */
  method RenderDescription(prologue: string) returns (line: string)
    ensures line == DescriptionLine(prologue)
  {
    if prologue != "" {
      line := "        \"description\": \"" + prologue + "\",";
    } else {
      line := "        \"description\": \"\",";
      assert DescriptionLine(prologue) == line;
    }
  }

  method RenderHeader(o: Options) returns (lines: seq<string>)
    ensures lines == Header(o)
  {
    var title := if o.title != "" then o.title else "Schema";
    lines := InfoOpen;
    if !o.skipTitle {
      lines := lines + ["    \"title\": \"" + title + "\","];
    }
    var description := RenderDescription(o.prologue);
    lines := lines + [description, "        \"version\": \"1.0.0\"", "},\"tags\": [\"" + LowerAll(title) + "\"],", "  \"paths\": {"];
  }

  method RenderPaths(title: string, v: seq<TypeDef>, query: Option<nat>, mutation: Option<nat>) returns (lines: seq<string>)
    requires RootRenderable(v, query) && RootRenderable(v, mutation)
    ensures lines == PathsPart(title, v, query, mutation)
  {
    lines := [];
    if query.Some? {
      lines := RenderApi(title, v[query.value]);
    }
    ghost var before := lines;
    if mutation.Some? {
      var api := RenderApi(title, v[mutation.value]);
      lines := lines + ([" ,"] + api);
    }
    assert lines == before + (if mutation.Some? then [" ,"] + Paths(title, v[mutation.value]) else []);
  }

  /** `renderOpenAPI(schema, options)`: the lines printed, and the sorted
      buckets they were printed from. */
  method RenderOpenApi(s: Schema, o: Options) returns (lines: seq<string>, b: Buckets)
    requires SchemaRenderable(s)
    ensures SortedBuckets(Visible(s.types), FindRoot(Visible(s.types), s.queryType), FindRoot(Visible(s.types), s.mutationType), b)
    ensures BucketsRenderable(b)
    ensures lines == Document(o, s, b)
  {
    var title := if o.title != "" then o.title else "Schema";
    var types := Visible(s.types);
    var query := FindRoot(types, s.queryType);
    var mutation := FindRoot(types, s.mutationType);
    b := SortBuckets(types, query, mutation);
    lines := RenderHeader(o);
    var paths := RenderPaths(title, types, query, mutation);
    lines := lines + paths;
    var components := RenderComponents("#/components/" + LowerAll(title) + "/", b);
    lines := lines + (["  },", "  \"components\": {", "    \"" + LowerAll(title) + "\": {"] + components + ["    }", "  }", "}"]);
  }
}
