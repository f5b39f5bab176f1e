/** The Markdown renderer's type signatures, links and name formatters
    (src/renderSchema.js:17-49, 101-114, 286-305). */
module MarkdownTypes {
  import opened Optional
  import opened Text
  import opened Introspection
  import opened Links

  /** `renderNonNull`: the required-field marker. */
  function RenderNonNull(t: TypeRef): (r: string)
    ensures r == "*" <==> t.NonNull?
    ensures r == " " <==> !t.NonNull?
  {
    if t.NonNull? then "*" else " "
  }

  /** `scalarTypeMap[name]`, the display names of the built-in scalars; `None` is `undefined`. */
  function ScalarTypeName(name: string): Option<string> {
    match name
    case "String" => Some("string")
    case "Int" => Some("int")
    case "Int64" => Some("int")
    case "Int32" => Some("int")
    case "Float" => Some("number")
    case "Boolean" => Some("bool")
    case "ID" => Some("string")
    case "Time" => Some("time.Time")
    case _ => None
  }

  /** The anchor a type's section carries: `<a id="${type.name.toLowerCase()}">`. */
  function AnchorId(name: string): string { LowerAll(name) }

  /** `getTypeURL(type)` of src/renderSchema.js: a link to the type's section
      when the map holds a definition of a linkable kind (every kind but
      SCALAR), `unknownTypeURL` itself for a SCALAR definition, and the
      fallback chain for names the map does not hold. */
  function GetTypeURL(tm: TypeMap, fb: Fallback, t: TypeRef): (r: Url)
    requires t.Named?
    ensures t.name in tm && tm[t.name].kind != Scalar ==> r == Text("#" + AnchorId(t.name))
    ensures t.name in tm && tm[t.name].kind == Scalar ==> r == Raw(fb)
    ensures t.name !in tm ==> r == Unresolved(fb, t, "#" + AnchorId(t.name))
  {
    var url := "#" + LowerAll(t.name);
    if t.name in tm then
      var k := tm[t.name].kind;
      if k == Enum || k == InputObject || k == Union || k == Interface || k == Object then Text(url)
      else
        assert k == Scalar;
        Raw(fb)
    else Unresolved(fb, t, url)
  }

  /** The displayed name of a named reference: scalars by `scalarTypeMap`
      (`undefined` for an unregistered one), other kinds by their own name. */
  function DisplayName(t: TypeRef): string
    requires t.Named?
  {
    if t.kind == Scalar then OrText(ScalarTypeName(t.name), UndefinedText) else t.name
  }

  /** `renderType(type, { getTypeURL })`. */
  function RenderType(tm: TypeMap, fb: Fallback, t: TypeRef): string {
    match t
    case NonNull(u) => RenderType(tm, fb, u)
    case List(u) => "[" + RenderType(tm, fb, u) + "]"
    case Named(_, _) => LeafSignature(tm, fb, t)
  }

  /** The signature of a named reference: its display name, as a Markdown link
      when there is a URL. */
  function LeafSignature(tm: TypeMap, fb: Fallback, b: TypeRef): string
    requires b.Named?
  {
    var url := GetTypeURL(tm, fb, b);
    if UrlTruthy(url) then "[" + DisplayName(b) + "](" + UrlShown(url) + ")" else DisplayName(b)
  }

  /** NON_NULL is invisible and every LIST adds one pair of brackets: a
      signature is its named type's signature inside `ListDepth` brackets. */
  lemma {:induction false} RenderTypeUnwraps(tm: TypeMap, fb: Fallback, t: TypeRef)
    ensures RenderType(tm, fb, t) == Repeat("[", t.ListDepth()) + LeafSignature(tm, fb, t.Base()) + Repeat("]", t.ListDepth())
  {
    match t
    case NonNull(u) =>
      RenderTypeUnwraps(tm, fb, u);
    case List(u) =>
      RenderTypeUnwraps(tm, fb, u);
      Bracketed(u.ListDepth(), LeafSignature(tm, fb, u.Base()));
    case Named(_, _) =>
      Unbracketed(RenderType(tm, fb, t));
  }

  /** NON_NULL wrappers anywhere in the chain do not change the signature, and
      only the `*` marker tells a required field from an optional one. */
  lemma RenderTypeIgnoresNonNull(tm: TypeMap, fb: Fallback, t: TypeRef)
    ensures RenderType(tm, fb, NonNull(t)) == RenderType(tm, fb, t)
    ensures RenderNonNull(NonNull(t)) == "*" && RenderNonNull(List(NonNull(t))) == " "
  {
  }

  /** A scalar shows its `scalarTypeMap` name, never its own: `Int`, `Int32`
      and `Int64` all read `int`, and an unregistered scalar reads "undefined". */
  lemma ScalarSignatures(tm: TypeMap, fb: Fallback, n: string)
    ensures DisplayName(Named(Scalar, n)) == OrText(ScalarTypeName(n), UndefinedText)
    ensures n in tm && tm[n].kind == Scalar && fb.NoFallback? ==>
      RenderType(tm, fb, Named(Scalar, n)) == OrText(ScalarTypeName(n), UndefinedText)
    ensures ScalarTypeName("Int") == ScalarTypeName("Int32") == ScalarTypeName("Int64") == Some("int")
    ensures ScalarTypeName("Boolean") == Some("bool") && ScalarTypeName("Time") == Some("time.Time")
    ensures ScalarTypeName("ID") == ScalarTypeName("String") == Some("string")
    ensures ScalarTypeName("Float") == Some("number")
    ensures forall n :: ScalarTypeName(n).Some? <==> n in BuiltinScalars
  {
  }

  /** Links into the document do not depend on the fallback, and fallbacks
      are used only for what the map cannot link. */
  lemma LinkedKindsIgnoreFallback(tm: TypeMap, fb1: Fallback, fb2: Fallback, t: TypeRef)
    requires t.Named? && t.name in tm && tm[t.name].kind != Scalar
    ensures GetTypeURL(tm, fb1, t) == GetTypeURL(tm, fb2, t)
    ensures UrlTruthy(GetTypeURL(tm, fb1, t))
  {
  }

  // ---------------------------------------------------------------------------
  // Name formatters
  // ---------------------------------------------------------------------------

  /** `toAPIName`: a space before every run of capitals, then the first
      character uppercased. Every character of the name keeps its order, at
      its `RunsPlace`; a space stands right before the first capital of each
      run; nothing else is added. */
  function ToAPIName(name: string): (r: string)
    requires |name| > 0
    ensures |r| == |name| + Runs(name, false)
    ensures !IsUpper(name[0]) ==> r[0] == Upper(name[0])
    ensures forall i :: 0 <= i < |name| && (0 < i || IsUpper(name[0])) ==>
      RunsPlace(name, false, i) < |r| && r[RunsPlace(name, false, i)] == name[i]
    ensures forall i :: 0 <= i < |name| && RunStart(name, false, i) ==>
      0 < RunsPlace(name, false, i) && r[RunsPlace(name, false, i) - 1] == ' '
  {
    SpaceRunsPlaces(name, false);
    UpperFirst(SpaceRuns(name, false))
  }

  /** `toDescription`: a space before every run of capitals, everything
      lowercased, then the first character uppercased. The characters are
      placed as by `ToAPIName`, lowercased, and only a leading non-capital
      is raised. */
  function ToDescription(name: string): (r: string)
    requires |name| > 0
    ensures |r| == |name| + Runs(name, false)
    ensures !IsUpper(name[0]) ==> r[0] == Upper(name[0])
    ensures forall i :: 0 <= i < |name| && (0 < i || IsUpper(name[0])) ==>
      RunsPlace(name, false, i) < |r| && r[RunsPlace(name, false, i)] == Lower(name[i])
    ensures forall i :: 0 <= i < |name| && RunStart(name, false, i) ==>
      0 < RunsPlace(name, false, i) && r[RunsPlace(name, false, i) - 1] == ' '
    ensures forall i :: 0 < i < |r| ==> !IsUpper(r[i])
  {
    SpaceRunsPlaces(name, false);
    UpperFirst(LowerAll(SpaceRuns(name, false)))
  }

  /** `toEnumDescription`: underscores become spaces, everything is lowercased,
      then the first character uppercased. */
  function ToEnumDescription(name: string): (r: string)
    requires |name| > 0
    ensures |r| == |name|
    ensures r[0] == Upper(if name[0] == '_' then ' ' else Lower(name[0]))
    ensures forall i :: 0 < i < |name| ==> r[i] == (if name[i] == '_' then ' ' else Lower(name[i]))
  {
    UpperFirst(LowerAll(UnderscoresToSpaces(name)))
  }

  /** Removing the inserted spaces gives the name back, first letter raised:
      `toAPIName` only inserts spaces before capital runs and raises the first
      character. */
  lemma ToAPINameRoundTrip(name: string)
    requires |name| > 0
    ensures Unspace(ToAPIName(name)) == UpperFirst(name)
  {
    var x := SpaceRuns(name, false);
    UnspaceSpaceRuns(name, false);
    var r := ToAPIName(name);
    if IsUpper(name[0]) {
      assert x == [' '] + [name[0]] + SpaceRuns(name[1..], true);
      assert r == x;
      assert Unspace(x) == Unspace(x[1..]);
    } else {
      assert x == [name[0]] + SpaceRuns(name[1..], false);
      assert x[1..] == SpaceRuns(name[1..], false);
      assert r == [Upper(name[0])] + x[1..];
      assert Unspace(r) == [r[0]] + Unspace(r[1..]);
      assert Unspace(x) == [x[0]] + Unspace(x[1..]);
      assert name == [name[0]] + name[1..];
    }
  }

  /** A description is the API name lowercased: the two formatters space the
      name identically and differ only in case. */
  lemma DescriptionIsLoweredAPIName(name: string)
    requires |name| > 0
    ensures LowerAll(ToDescription(name)) == LowerAll(ToAPIName(name))
  {
    var x := SpaceRuns(name, false);
    var a := LowerAll(ToDescription(name));
    var b := LowerAll(ToAPIName(name));
    assert |a| == |b|;
    forall i | 0 <= i < |a|
      ensures a[i] == b[i]
    {
      if i == 0 {
        assert Lower(Upper(Lower(x[0]))) == Lower(Upper(x[0]));
      }
    }
  }
}
