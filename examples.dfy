/** `renderParameters`: the recursive example synthesiser. Both renderers carry a
    copy (src/renderSchema.js:219-265 and src/renderOpenAPI.js:193-240); the
    copies differ only in how leaves and keys are written, so one definition
    takes the dialect as a parameter.

    The source has no cycle guard: it recurses into every field of every
    resolved type and diverges on a cyclic type graph. The model therefore asks
    for a ghost `rank` on the type names it expands that strictly decreases
    from a type to each type it expands next (`Closed`), a proof that the part
    of the graph reached from the reference is acyclic. */
module Examples {
  import opened Optional
  import opened Text
  import opened Introspection

  datatype Dialect = Markdown | OpenApi

  /** `scalarDefaultValueMap[name]` of the Markdown renderer; `None` is `undefined`. */
  function ScalarDefault(name: string): Option<string> {
    match name
    case "String" => Some("\"string\"")
    case "Int" => Some("0")
    case "Int64" => Some("0")
    case "Int32" => Some("0")
    case "Float" => Some("0.0")
    case "Boolean" => Some("true")
    case "ID" => Some("\"string\"")
    case "Time" => Some("\"2022-01-01T00:00:00Z\"")
    case _ => None
  }

  /** The key written for a field, and the quoted text written for an
      unresolved type: the Markdown copy keeps the name, the OpenAPI copy
      lowercases it. */
  function Key(d: Dialect, name: string): string {
    if d == Markdown then name else LowerAll(name)
  }

  // ---------------------------------------------------------------------------
  // When the recursion goes on, and why it stops
  // ---------------------------------------------------------------------------

  /** A named reference the synthesiser expands into its fields: neither a
      scalar nor an enum, resolved by the type map, with a field list. */
  predicate Expands(tm: TypeMap, kind: Kind, name: string) {
    kind != Scalar && kind != Enum && name in tm && FieldList(tm[name], kind).Some?
  }

  function OrEmpty(fs: Option<seq<Field>>): seq<Field> {
    if fs.Some? then fs.value else []
  }

  /** The named reference at the bottom of `t` can be synthesised: in Markdown an
      enum resolves to a definition with at least one value (the source reads
      `enumValues[0].name`, which throws otherwise), and an expanded type is
      ranked. */
  ghost predicate Covered(d: Dialect, tm: TypeMap, rank: map<string, nat>, t: TypeRef) {
    var b := t.Base();
    && (d == Markdown && b.kind == Enum ==>
          b.name in tm && tm[b.name].enumValues.Some? && |tm[b.name].enumValues.value| > 0)
    && (Expands(tm, b.kind, b.name) ==> b.name in rank)
  }

  /** One more than the rank of the type `t` expands into, and 0 when `t` does
      not expand. */
  ghost function RankOf(tm: TypeMap, rank: map<string, nat>, t: TypeRef): nat {
    var b := t.Base();
    if Expands(tm, b.kind, b.name) && b.name in rank then rank[b.name] + 1 else 0
  }

  /** Each of the fields is covered and expands, if at all, into a type of rank
      below `bound`. */
  ghost predicate FieldsBelow(d: Dialect, tm: TypeMap, rank: map<string, nat>, fs: seq<Field>, bound: nat) {
    forall i :: 0 <= i < |fs| ==> Covered(d, tm, rank, fs[i].typ) && RankOf(tm, rank, fs[i].typ) <= bound
  }

  /** A ranked type is defined, and its fields and its input fields are below
      its rank (which list is read depends on the kind of the reference that
      reaches it). */
  ghost predicate RankedOk(d: Dialect, tm: TypeMap, rank: map<string, nat>, n: string) {
    n in rank ==>
      && n in tm
      && FieldsBelow(d, tm, rank, OrEmpty(tm[n].fields), rank[n])
      && FieldsBelow(d, tm, rank, OrEmpty(tm[n].inputFields), rank[n])
  }

  /** Every ranked type is. */
  ghost predicate Closed(d: Dialect, tm: TypeMap, rank: map<string, nat>) {
    forall n :: RankedOk(d, tm, rank, n)
  }

  /** The fields an expanded reference is synthesised from are below its rank. */
  lemma ExpandedFieldsBelow(d: Dialect, tm: TypeMap, rank: map<string, nat>, k: Kind, n: string)
    requires Closed(d, tm, rank) && Covered(d, tm, rank, Named(k, n)) && Expands(tm, k, n)
    ensures n in rank && FieldsBelow(d, tm, rank, FieldList(tm[n], k).value, rank[n])
  {
    assert RankedOk(d, tm, rank, n);
  }

  // ---------------------------------------------------------------------------
  // The synthesised example
  // ---------------------------------------------------------------------------

  /** The example text for reference `t`, indented for nesting `level`. */
  function Example(d: Dialect, tm: TypeMap, ghost rank: map<string, nat>, t: TypeRef, level: nat): string
    requires Closed(d, tm, rank) && Covered(d, tm, rank, t)
    decreases RankOf(tm, rank, t), t.Depth() + 2, 0
  {
    match t
    case NonNull(u) => Example(d, tm, rank, u, level + 1)
    case List(u) => "[" + Example(d, tm, rank, u, level + 1) + "]"
    case Named(k, n) => NamedExample(d, tm, rank, k, n, level)
  }

  /** The example of a named reference: its fields' entries between braces when
      it expands, a leaf otherwise. */
  function NamedExample(d: Dialect, tm: TypeMap, ghost rank: map<string, nat>, k: Kind, n: string, level: nat): string
    requires Closed(d, tm, rank) && Covered(d, tm, rank, Named(k, n))
    decreases RankOf(tm, rank, Named(k, n)), 1, 0
  {
    if Expands(tm, k, n) then
      var fs := FieldList(tm[n], k).value;
      ExpandedFieldsBelow(d, tm, rank, k, n);
      "{" + Entries(d, tm, rank, fs, |fs|, level, rank[n]) + "\n>" + Indent(level) + "}"
    else Leaf(d, tm, k, n)
  }

  /** The example of a named reference that does not expand. */
  function Leaf(d: Dialect, tm: TypeMap, k: Kind, n: string): string
    requires d == Markdown && k == Enum ==> n in tm && tm[n].enumValues.Some? && |tm[n].enumValues.value| > 0
  {
    if d == Markdown && k == Scalar then OrText(ScalarDefault(n), UndefinedText)
    else if d == OpenApi && (k == Scalar || k == Enum) then Quote(LowerAll(n))
    else if k == Enum then Quote(tm[n].enumValues.value[0].name)
    else Quote(Key(d, n))
  }

  /** The first `k` entries of an object example: for field `i`, a line break,
      the indentation, `"name":value`, and a comma unless `i` is the last field. */
  function Entries(d: Dialect, tm: TypeMap, ghost rank: map<string, nat>, fs: seq<Field>, k: nat, level: nat, ghost bound: nat): string
    requires Closed(d, tm, rank) && FieldsBelow(d, tm, rank, fs, bound) && k <= |fs|
    decreases bound + 1, 0, k
  {
    if k == 0 then ""
    else
      Entries(d, tm, rank, fs, k - 1, level, bound)
      + EntryBody(d, tm, rank, fs[k - 1], level, bound)
      + (if k - 1 < |fs| - 1 then "," else "")
  }

  /** One entry without its comma. */
  function EntryBody(d: Dialect, tm: TypeMap, ghost rank: map<string, nat>, f: Field, level: nat, ghost bound: nat): string
    requires Closed(d, tm, rank) && Covered(d, tm, rank, f.typ) && RankOf(tm, rank, f.typ) <= bound
    decreases bound + 1, 0, 0
  {
    EntryLead(level) + (Quote(Key(d, f.name)) + ":" + Example(d, tm, rank, f.typ, level + 1))
  }

  /** What precedes an entry's key: four spaces, a line break with the quote
      marker `>`, and two spaces per level. */
  function EntryLead(level: nat): string {
    "    " + "\n>" + Indent(level)
  }

  // ---------------------------------------------------------------------------
  // The source's algorithm: string accumulation with counted indentation loops
  // ---------------------------------------------------------------------------

  /** `for (var i = 0; i < level; i++) result += '  '`. */
  method AppendIndent(s: string, level: nat) returns (r: string)
    ensures r == s + Indent(level)
  {
    r := s;
    for i := 0 to level
      invariant r == s + Indent(i)
    {
      RepeatSnoc("  ", i);
      r := r + "  ";
    }
  }

  /** `renderParameters(type, level, { getType })`. */
  method RenderParameters(d: Dialect, tm: TypeMap, ghost rank: map<string, nat>, t: TypeRef, level: nat) returns (r: string)
    requires Closed(d, tm, rank) && Covered(d, tm, rank, t)
    ensures r == Example(d, tm, rank, t, level)
    decreases RankOf(tm, rank, t), t.Depth() + 2, 0
  {
    match t {
      case NonNull(u) =>
        r := RenderParameters(d, tm, rank, u, level + 1);
      case List(u) =>
        var inner := RenderParameters(d, tm, rank, u, level + 1);
        r := "[" + inner + "]";
      case Named(k, n) =>
        if d == Markdown && k == Scalar {
          r := OrText(ScalarDefault(n), UndefinedText);
          return;
        }
        if d == OpenApi && (k == Scalar || k == Enum) {
          r := Quote(LowerAll(n));
          return;
        }
        var typeDefine := GetType(tm, n);
        if k == Enum {
          r := Quote(typeDefine.value.enumValues.value[0].name);
          return;
        }
        var fields := if typeDefine.Some? then FieldList(typeDefine.value, k) else None;
        if fields.None? {
          r := Quote(Key(d, n));
          return;
        }
        var fs := fields.value;
        ExpandedFieldsBelow(d, tm, rank, k, n);
        r := "{";
        var index := 0;
        while index < |fs|
          invariant 0 <= index <= |fs|
          invariant r == "{" + Entries(d, tm, rank, fs, index, level, rank[n])
        {
          ghost var prior := Entries(d, tm, rank, fs, index, level, rank[n]);
          r := AppendEntry(d, tm, rank, r, fs, index, level, rank[n]);
          Associative("{", prior, EntryBody(d, tm, rank, fs[index], level, rank[n]), if index < |fs| - 1 then "," else "");
          index := index + 1;
        }
        r := r + "\n>";
        r := AppendIndent(r, level);
        r := r + "}";
    }
  }

  /** The `fields.forEach((field, index) => ...)` callback: appends entry `index`
      and, unless it is the last, a comma. */
  method AppendEntry(d: Dialect, tm: TypeMap, ghost rank: map<string, nat>, s: string, fs: seq<Field>, index: nat, level: nat, ghost bound: nat)
    returns (r: string)
    requires Closed(d, tm, rank) && FieldsBelow(d, tm, rank, fs, bound) && index < |fs|
    ensures r == s + EntryBody(d, tm, rank, fs[index], level, bound) + (if index < |fs| - 1 then "," else "")
    decreases bound + 1, 0, 0
  {
    r := s + "    ";
    r := r + "\n>";
    r := AppendIndent(r, level);
    assert r == s + EntryLead(level);
    var value := RenderParameters(d, tm, rank, fs[index].typ, level + 1);
    r := r + (Quote(Key(d, fs[index].name)) + ":" + value);
    assert r == s + EntryBody(d, tm, rank, fs[index], level, bound);
    if index < |fs| - 1 {
      r := r + ",";
    }
  }

  // ---------------------------------------------------------------------------
  // What the example is
  // ---------------------------------------------------------------------------

  /** NON_NULL only deepens the indentation, LIST brackets the inner example:
      the example of any reference is its named type's example at the level
      below all wrappers, inside one pair of brackets per LIST. */
  lemma {:induction false} ExampleUnwraps(d: Dialect, tm: TypeMap, rank: map<string, nat>, t: TypeRef, level: nat)
    requires Closed(d, tm, rank) && Covered(d, tm, rank, t)
    ensures Covered(d, tm, rank, t.Base())
    ensures Example(d, tm, rank, t, level)
         == Repeat("[", t.ListDepth()) + Example(d, tm, rank, t.Base(), level + t.Depth()) + Repeat("]", t.ListDepth())
  {
    match t
    case NonNull(u) =>
      ExampleUnwraps(d, tm, rank, u, level + 1);
      UnwrapNonNull(d, tm, rank, u, level);
    case List(u) =>
      ExampleUnwraps(d, tm, rank, u, level + 1);
      UnwrapList(d, tm, rank, u, level);
    case Named(_, _) =>
      assert t.Base() == t && t.ListDepth() == 0 && t.Depth() == 0;
      Unbracketed(Example(d, tm, rank, t, level));
  }

  lemma UnwrapNonNull(d: Dialect, tm: TypeMap, rank: map<string, nat>, u: TypeRef, level: nat)
    requires Closed(d, tm, rank) && Covered(d, tm, rank, u) && Covered(d, tm, rank, u.Base())
    requires Example(d, tm, rank, u, level + 1)
          == Repeat("[", u.ListDepth()) + Example(d, tm, rank, u.Base(), level + 1 + u.Depth()) + Repeat("]", u.ListDepth())
    ensures var t := NonNull(u);
      Covered(d, tm, rank, t) && Example(d, tm, rank, t, level)
      == Repeat("[", t.ListDepth()) + Example(d, tm, rank, t.Base(), level + t.Depth()) + Repeat("]", t.ListDepth())
  {
    var t := NonNull(u);
    assert u.Base() == t.Base() && u.ListDepth() == t.ListDepth() && level + 1 + u.Depth() == level + t.Depth();
  }

  lemma UnwrapList(d: Dialect, tm: TypeMap, rank: map<string, nat>, u: TypeRef, level: nat)
    requires Closed(d, tm, rank) && Covered(d, tm, rank, u) && Covered(d, tm, rank, u.Base())
    requires Example(d, tm, rank, u, level + 1)
          == Repeat("[", u.ListDepth()) + Example(d, tm, rank, u.Base(), level + 1 + u.Depth()) + Repeat("]", u.ListDepth())
    ensures var t := List(u);
      Covered(d, tm, rank, t) && Example(d, tm, rank, t, level)
      == Repeat("[", t.ListDepth()) + Example(d, tm, rank, t.Base(), level + t.Depth()) + Repeat("]", t.ListDepth())
  {
    var t := List(u);
    assert u.Base() == t.Base() && u.ListDepth() + 1 == t.ListDepth() && level + 1 + u.Depth() == level + t.Depth();
    Bracketed(u.ListDepth(), Example(d, tm, rank, u.Base(), level + 1 + u.Depth()));
  }

  /** Where nothing below the wrappers is expanded, the level has no effect:
      NON_NULL(T) and T, at any depth, give the same example. */
  lemma {:induction false} LeafExampleIgnoresLevel(d: Dialect, tm: TypeMap, rank: map<string, nat>, t: TypeRef, level1: nat, level2: nat)
    requires Closed(d, tm, rank) && Covered(d, tm, rank, t)
    requires !Expands(tm, t.Base().kind, t.Base().name)
    ensures Example(d, tm, rank, t, level1) == Example(d, tm, rank, t, level2)
  {
    match t
    case NonNull(u) => LeafExampleIgnoresLevel(d, tm, rank, u, level1 + 1, level2 + 1);
    case List(u) => LeafExampleIgnoresLevel(d, tm, rank, u, level1 + 1, level2 + 1);
    case Named(_, _) =>
  }

  /** The entry bodies of the fields, in field order. */
  ghost predicate AreBodies(d: Dialect, tm: TypeMap, rank: map<string, nat>, fs: seq<Field>, level: nat, bound: nat, bodies: seq<string>)
    requires Closed(d, tm, rank) && FieldsBelow(d, tm, rank, fs, bound)
  {
    |bodies| == |fs| && forall i :: 0 <= i < |fs| ==> bodies[i] == EntryBody(d, tm, rank, fs[i], level, bound)
  }

  /** The first `k` entries are the first `k` bodies with a comma between
      consecutive ones, followed by a comma when more entries come. */
  lemma {:induction false} EntriesPrefix(d: Dialect, tm: TypeMap, rank: map<string, nat>, fs: seq<Field>, level: nat, bound: nat, bodies: seq<string>, k: nat)
    requires Closed(d, tm, rank) && FieldsBelow(d, tm, rank, fs, bound)
    requires AreBodies(d, tm, rank, fs, level, bound, bodies) && k <= |fs|
    ensures Entries(d, tm, rank, fs, k, level, bound) == JoinStrings(bodies[..k], ",") + (if 0 < k < |fs| then "," else "")
  {
    if k > 0 {
      EntriesPrefix(d, tm, rank, fs, level, bound, bodies, k - 1);
      var prev := JoinStrings(bodies[..k - 1], ",");
      var sep := if k - 1 > 0 then "," else "";
      var tail := if k < |fs| then "," else "";
      assert Entries(d, tm, rank, fs, k - 1, level, bound) == prev + sep;
      assert Entries(d, tm, rank, fs, k, level, bound) == prev + sep + bodies[k - 1] + tail;
      TakeSnoc(bodies, k);
      JoinStringsSnoc(bodies[..k - 1], bodies[k - 1], ",");
      Associative(prev, sep, bodies[k - 1], tail);
    }
  }

  /** The entries of an object example are the entry bodies, in field order,
      with exactly one comma between consecutive entries and none after the
      last. */
  lemma EntriesAreCommaSeparated(d: Dialect, tm: TypeMap, rank: map<string, nat>, fs: seq<Field>, level: nat, bound: nat, bodies: seq<string>)
    requires Closed(d, tm, rank) && FieldsBelow(d, tm, rank, fs, bound)
    requires AreBodies(d, tm, rank, fs, level, bound, bodies)
    ensures Entries(d, tm, rank, fs, |fs|, level, bound) == JoinStrings(bodies, ",")
  {
    EntriesPrefix(d, tm, rank, fs, level, bound, bodies, |fs|);
    assert bodies[..|fs|] == bodies;
  }

  /** An expanded object or input object: an opening brace, its comma-separated
      entries in field order, and a closing brace on its own line indented by
      two spaces per level. */
  lemma ObjectExample(d: Dialect, tm: TypeMap, rank: map<string, nat>, k: Kind, n: string, level: nat, bodies: seq<string>)
    requires Closed(d, tm, rank) && Covered(d, tm, rank, Named(k, n)) && Expands(tm, k, n)
    requires n in rank && FieldsBelow(d, tm, rank, FieldList(tm[n], k).value, rank[n])
    requires AreBodies(d, tm, rank, FieldList(tm[n], k).value, level, rank[n], bodies)
    ensures Example(d, tm, rank, Named(k, n), level) == "{" + JoinStrings(bodies, ",") + "\n>" + Indent(level) + "}"
  {
    EntriesAreCommaSeparated(d, tm, rank, FieldList(tm[n], k).value, level, rank[n], bodies);
  }

  // ---------------------------------------------------------------------------
  // Leaves, dialect by dialect
  // ---------------------------------------------------------------------------

  /** Markdown: a scalar gives exactly its registered literal, and the text
      "undefined" for an unregistered name (there is no quoted-name fallback);
      an enum gives its first declared value, quoted; a name that does not
      expand gives itself, quoted. Wrappers only add brackets. */
  lemma MarkdownLeafExamples(tm: TypeMap, rank: map<string, nat>, t: TypeRef, level: nat)
    requires Closed(Markdown, tm, rank) && Covered(Markdown, tm, rank, t)
    ensures var b := t.Base();
      var leaf :=
        if b.kind == Scalar then OrText(ScalarDefault(b.name), UndefinedText)
        else if b.kind == Enum then Quote(tm[b.name].enumValues.value[0].name)
        else if !Expands(tm, b.kind, b.name) then Quote(b.name)
        else Example(Markdown, tm, rank, b, level + t.Depth());
      Example(Markdown, tm, rank, t, level) == Repeat("[", t.ListDepth()) + leaf + Repeat("]", t.ListDepth())
  {
    ExampleUnwraps(Markdown, tm, rank, t, level);
  }

  /** The registered scalar literals. */
  lemma ScalarDefaultTable()
    ensures ScalarDefault("Int") == ScalarDefault("Int32") == ScalarDefault("Int64") == Some("0")
    ensures ScalarDefault("String") == ScalarDefault("ID") == Some("\"string\"")
    ensures ScalarDefault("Float") == Some("0.0") && ScalarDefault("Boolean") == Some("true")
    ensures ScalarDefault("Time") == Some("\"2022-01-01T00:00:00Z\"")
    ensures ScalarDefault("Date").None?
    ensures forall n :: ScalarDefault(n).Some? <==> n in BuiltinScalars
  {}

  /** OpenAPI: scalars and enums alike give their lowercased name, quoted (so
      the copy's separate enum branch is never reached), and so does a name
      that does not expand; object keys are lowercased. */
  lemma OpenApiLeafExamples(tm: TypeMap, rank: map<string, nat>, t: TypeRef, level: nat)
    requires Closed(OpenApi, tm, rank) && Covered(OpenApi, tm, rank, t)
    requires !Expands(tm, t.Base().kind, t.Base().name)
    ensures Example(OpenApi, tm, rank, t, level)
         == Repeat("[", t.ListDepth()) + Quote(LowerAll(t.Base().name)) + Repeat("]", t.ListDepth())
  {
    ExampleUnwraps(OpenApi, tm, rank, t, level);
  }
}
