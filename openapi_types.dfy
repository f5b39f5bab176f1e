/** The OpenAPI renderer's component links, type signatures, scalar names and
    description formatter (src/renderOpenAPI.js:25-34, 97-100, 261-270,
    396-405). */
module OpenApiTypes {
  import opened Optional
  import opened Text
  import opened Introspection
  import opened Links
  import MarkdownTypes

  /** `scalarTypeMap[name]` of the OpenAPI renderer, JSON Schema type names; `None` is `undefined`. */
  function ScalarTypeName(name: string): Option<string> {
    match name
    case "String" => Some("string")
    case "Int" => Some("integer")
    case "Int64" => Some("integer")
    case "Int32" => Some("integer")
    case "Float" => Some("number")
    case "Boolean" => Some("boolean")
    case "ID" => Some("string")
    case "Time" => Some("string")
    case _ => None
  }

  /** The JSON pointer prefix of the components: `#/components/${title.toLowerCase()}/`. */
  function ComponentsPrefix(title: string): string {
    "#/components/" + LowerAll(title) + "/"
  }

  /** `getTypeURL(type)` of src/renderOpenAPI.js: a component pointer for any
      name the map holds, whatever its kind, and the fallback chain otherwise. */
  function GetTypeURL(tm: TypeMap, fb: Fallback, title: string, t: TypeRef): (r: Url)
    requires t.Named?
    ensures t.name in tm ==> r == Text(ComponentsPrefix(title) + t.name)
    ensures t.name !in tm ==> r == Unresolved(fb, t, ComponentsPrefix(title) + t.name)
  {
    var url := "#/components/" + LowerAll(title) + "/" + t.name;
    if t.name in tm then Text(url) else Unresolved(fb, t, url)
  }

  /** `renderType(type, { getTypeURL })` of src/renderOpenAPI.js (defined there
      but called nowhere). */
  function RenderType(tm: TypeMap, fb: Fallback, title: string, t: TypeRef): string {
    match t
    case NonNull(u) => RenderType(tm, fb, title, u)
    case List(u) => "[" + RenderType(tm, fb, title, u) + "]"
    case Named(_, _) => LeafSignature(tm, fb, title, t)
  }

  /** The signature of a named reference: its own name (no scalar renaming),
      linked when there is a URL. */
  function LeafSignature(tm: TypeMap, fb: Fallback, title: string, b: TypeRef): string
    requires b.Named?
  {
    var url := GetTypeURL(tm, fb, title, b);
    if UrlTruthy(url) then "[" + b.name + "](" + UrlShown(url) + ")" else b.name
  }

  /** NON_NULL is invisible and every LIST adds one pair of brackets. */
  lemma {:induction false} RenderTypeUnwraps(tm: TypeMap, fb: Fallback, title: string, t: TypeRef)
    ensures RenderType(tm, fb, title, t)
         == Repeat("[", t.ListDepth()) + LeafSignature(tm, fb, title, t.Base()) + Repeat("]", t.ListDepth())
  {
    match t
    case NonNull(u) =>
      RenderTypeUnwraps(tm, fb, title, u);
    case List(u) =>
      RenderTypeUnwraps(tm, fb, title, u);
      Bracketed(u.ListDepth(), LeafSignature(tm, fb, title, u.Base()));
    case Named(_, _) =>
      Unbracketed(RenderType(tm, fb, title, t));
  }

  /** Every name the map holds, scalars included, is linked to its component,
      whatever the fallback. */
  lemma KnownNamesAreLinked(tm: TypeMap, fb: Fallback, title: string, k: Kind, n: string)
    requires n in tm
    ensures RenderType(tm, fb, title, Named(k, n)) == "[" + n + "](" + ComponentsPrefix(title) + n + ")"
  {
  }

  /** The JSON Schema names of the built-in scalars. */
  lemma ScalarTypeTable()
    ensures ScalarTypeName("Int") == ScalarTypeName("Int32") == ScalarTypeName("Int64") == Some("integer")
    ensures ScalarTypeName("Boolean") == Some("boolean") && ScalarTypeName("Float") == Some("number")
    ensures ScalarTypeName("String") == ScalarTypeName("ID") == ScalarTypeName("Time") == Some("string")
    ensures ScalarTypeName("Date").None?
    ensures forall n :: ScalarTypeName(n).Some? <==> n in BuiltinScalars
  {
  }

  // ---------------------------------------------------------------------------
  // toDescription
  // ---------------------------------------------------------------------------

  /** `toDescription` of src/renderOpenAPI.js: a space before every capital (not
      every run of capitals), everything lowercased, then the first character
      uppercased. Every character of the name keeps its order, lowercased, at
      its `CapsPlace`; a space stands right before every capital; only a
      leading non-capital is raised. */
  function ToDescription(name: string): (r: string)
    requires |name| > 0
    ensures |r| == |name| + Caps(name)
    ensures !IsUpper(name[0]) ==> r[0] == Upper(name[0])
    ensures forall i :: 0 <= i < |name| && (0 < i || IsUpper(name[0])) ==>
      CapsPlace(name, i) < |r| && r[CapsPlace(name, i)] == Lower(name[i])
    ensures forall i :: 0 <= i < |name| && IsUpper(name[i]) ==>
      0 < CapsPlace(name, i) && r[CapsPlace(name, i) - 1] == ' '
    ensures forall i :: 0 < i < |r| ==> !IsUpper(r[i])
  {
    SpaceCapsPlaces(name);
    UpperFirst(LowerAll(SpaceCaps(name)))
  }

  /** No two capitals stand next to each other. */
  predicate NoAdjacentCaps(s: string) {
    forall i :: 0 < i < |s| ==> !(IsUpper(s[i - 1]) && IsUpper(s[i]))
  }

  /** Without adjacent capitals every run of capitals is a single capital, so
      spacing runs and spacing capitals agree. */
  lemma {:induction false} RunsAreCapsWhenSingle(s: string, afterUpper: bool)
    requires NoAdjacentCaps(s)
    requires afterUpper ==> |s| == 0 || !IsUpper(s[0])
    ensures SpaceRuns(s, afterUpper) == SpaceCaps(s)
  {
    if s != [] {
      assert NoAdjacentCaps(s[1..]) by {
        forall i | 0 < i < |s[1..]| ensures !(IsUpper(s[1..][i - 1]) && IsUpper(s[1..][i])) {
          assert s[1..][i - 1] == s[i] && s[1..][i] == s[i + 1];
        }
      }
      RunsAreCapsWhenSingle(s[1..], IsUpper(s[0]));
    }
  }

  /** The two renderers describe a name alike unless it has two capitals in a
      row. */
  lemma DescriptionsAgree(name: string)
    requires |name| > 0 && NoAdjacentCaps(name)
    ensures ToDescription(name) == MarkdownTypes.ToDescription(name)
  {
    RunsAreCapsWhenSingle(name, false);
  }

  /** An example of the disagreement: `ID` reads " i d" here and " id" in
      Markdown. */
  lemma DescriptionsDiffer()
    ensures ToDescription("ID") == " i d"
    ensures MarkdownTypes.ToDescription("ID") == " id"
  {
    assert SpaceCaps("ID") == " I D" by {
      assert SpaceCaps("D") == " D";
    }
    assert SpaceRuns("ID", false) == " ID" by {
      assert SpaceRuns("D", true) == "D";
    }
    assert LowerAll(" I D") == " i d";
    assert LowerAll(" ID") == " id";
  }
}
