/** The Markdown renderer's emitters: type sections, enum sections, the table
    of contents, the API sections, and `renderSchema` putting them in order
    (src/renderSchema.js:62-99, 116-216, 267-570). The `printer` callback is
    modelled by returning the printed lines, one string per call. */
module MarkdownDocument {
  import opened Optional
  import opened Text
  import opened Introspection
  import opened Links
  import opened Examples
  import opened Sorting
  import opened MarkdownTypes

  /** `renderSchema`'s options. An empty `title`, `prologue` or `epilogue` and a
      zero `headingLevel` are what the source treats as not given (they are
      falsy); the `printer` option is the returned line list. */
  datatype Options = Options(
    title: string,
    skipTitle: bool,
    skipTableOfContents: bool,
    prologue: string,
    epilogue: string,
    headingLevel: nat,
    unknownTypeURL: Fallback)

  /** `options.title || 'Schema Types'`. */
  function Title(o: Options): string { if o.title != "" then o.title else "Schema Types" }

  /** `options.headingLevel || 1`. */
  function HeadingLevel(o: Options): nat { if o.headingLevel != 0 then o.headingLevel else 1 }

  // ---------------------------------------------------------------------------
  // Type sections (`renderObject`)
  // ---------------------------------------------------------------------------

  /** The heading of a type's section, with the anchor links point at. */
  function TypeHeading(hl: nat, name: string): string {
    "\n" + Repeat("#", hl + 2) + " " + name + "\n<a id=\"" + AnchorId(name) + "\"></a>"
  }

  /** A field the source can describe: it has a description, or a name for
      `toDescription` (which throws on the empty name). */
  predicate Describable(f: Field) { Truthy(f.description) || |f.name| > 0 }

  predicate AllDescribable(fs: seq<Field>) { forall i :: 0 <= i < |fs| ==> Describable(fs[i]) }

  /** `field.description`, or `toDescription(field.name)` when it is falsy. */
  function FieldDescription(f: Field): string
    requires Describable(f)
  {
    if Truthy(f.description) then f.description.value else ToDescription(f.name)
  }

  /** The text of a field-table row. */
  function RowText(name: string, marker: string, signature: string, description: string): string {
    "| <font color=\"#FFC0CBH\" > `" + name + "` " + marker + " </font>&nbsp; " + signature + " | " + description + " |"
  }

  /** One row of a field table: name, required marker, signature, description. */
  function FieldRow(tm: TypeMap, fb: Fallback, f: Field): string
    requires Describable(f)
  {
    RowText(f.name, RenderNonNull(f.typ), RenderType(tm, fb, f.typ), FieldDescription(f))
  }

  /** The rows of the fields, in declaration order. */
  function FieldRows(tm: TypeMap, fb: Fallback, fs: seq<Field>): seq<string>
    requires AllDescribable(fs)
  {
    if |fs| == 0 then []
    else
      assert AllDescribable(fs[..|fs| - 1]);
      FieldRows(tm, fb, fs[..|fs| - 1]) + [FieldRow(tm, fb, fs[|fs| - 1])]
  }

  /** Row `i` is the row of field `i`, and there is no other. */
  lemma {:induction false} FieldRowsIndex(tm: TypeMap, fb: Fallback, fs: seq<Field>)
    requires AllDescribable(fs)
    ensures |FieldRows(tm, fb, fs)| == |fs|
    ensures forall i :: 0 <= i < |fs| ==> FieldRows(tm, fb, fs)[i] == FieldRow(tm, fb, fs[i])
  {
    if |fs| > 0 {
      var init := fs[..|fs| - 1];
      FieldRowsIndex(tm, fb, init);
      forall i | 0 <= i < |fs| - 1 ensures FieldRows(tm, fb, fs)[i] == FieldRow(tm, fb, fs[i]) {
        assert init[i] == fs[i];
      }
    }
  }

  /** The `forEach` loop printing one row per field (or argument). */
  method RenderRows(tm: TypeMap, fb: Fallback, fields: seq<Field>) returns (lines: seq<string>)
    requires AllDescribable(fields)
    ensures lines == FieldRows(tm, fb, fields)
  {
    lines := [];
    for i := 0 to |fields|
      invariant AllDescribable(fields[..i])
      invariant lines == FieldRows(tm, fb, fields[..i])
    {
      var field := fields[i];
      var fieldDescription: string;
      if Truthy(field.description) {
        fieldDescription := field.description.value;
      } else {
        fieldDescription := ToDescription(field.name);
      }
      lines := lines + [RowText(field.name, RenderNonNull(field.typ), RenderType(tm, fb, field.typ), fieldDescription)];
      assert fields[..i + 1][..i] == fields[..i];
    }
    assert fields[..|fields|] == fields;
  }

  /** A type `renderObject` can render: the field list its kind selects is
      present (`fields.forEach` throws on `null`) and every field can be
      described. */
  predicate ObjectRenderable(def: TypeDef) {
    FieldList(def, def.kind).Some? && AllDescribable(FieldList(def, def.kind).value)
  }

  const FieldTableHead := "\n| Field  | Description   |"
  const FieldTableRule := "| ------ | ------------ |"

  /** The description line of a section, when the description is truthy. */
  function SectionDescription(d: Option<string>): seq<string> {
    if Truthy(d) then [d.value + "\n"] else []
  }

  /** The lines before the field rows. */
  function ObjectHeader(hl: nat, skipTitle: bool, def: TypeDef): seq<string> {
    (if skipTitle then [] else [TypeHeading(hl, def.name)])
    + SectionDescription(def.description)
    + [FieldTableHead, FieldTableRule]
  }

  /** What `renderObject(type, { headingLevel, printer, getTypeURL })` prints. */
  function ObjectSection(tm: TypeMap, fb: Fallback, hl: nat, skipTitle: bool, def: TypeDef): seq<string>
    requires ObjectRenderable(def)
  {
    ObjectHeader(hl, skipTitle, def) + FieldRows(tm, fb, FieldList(def, def.kind).value)
  }

  /** The lines `renderObject` prints before the rows. */
  method RenderObjectHeader(hl: nat, skipTitle: bool, def: TypeDef) returns (lines: seq<string>)
    ensures lines == ObjectHeader(hl, skipTitle, def)
  {
    lines := [];
    if !skipTitle {
      lines := lines + [TypeHeading(hl, def.name)];
    }
    ghost var title := lines;
    if Truthy(def.description) {
      lines := lines + [def.description.value + "\n"];
    }
    assert lines == title + SectionDescription(def.description);
    lines := lines + [FieldTableHead, FieldTableRule];
  }

  /** `renderObject`: the header lines, then one row per field. */
  method RenderObject(tm: TypeMap, fb: Fallback, hl: nat, skipTitle: bool, def: TypeDef) returns (lines: seq<string>)
    requires ObjectRenderable(def)
    ensures lines == ObjectSection(tm, fb, hl, skipTitle, def)
  {
    var header := RenderObjectHeader(hl, skipTitle, def);
    var fields := FieldList(def, def.kind).value;
    var rows := RenderRows(tm, fb, fields);
    lines := header + rows;
  }

  /** The number of lines before the field rows. */
  function HeaderSize(skipTitle: bool, def: TypeDef): nat {
    (if skipTitle then 0 else 1) + (if Truthy(def.description) then 1 else 0) + 2
  }

  /** The section opens with the heading (unless skipped), the description
      (when truthy) and the table head, and has one more line per field of
      the list the kind selects (input fields for an input object). */
  lemma ObjectSectionLayout(tm: TypeMap, fb: Fallback, hl: nat, skipTitle: bool, def: TypeDef)
    requires ObjectRenderable(def)
    ensures |ObjectSection(tm, fb, hl, skipTitle, def)| == HeaderSize(skipTitle, def) + |FieldList(def, def.kind).value|
    ensures !skipTitle ==> ObjectSection(tm, fb, hl, skipTitle, def)[0] == TypeHeading(hl, def.name)
    ensures ObjectSection(tm, fb, hl, skipTitle, def)[HeaderSize(skipTitle, def) - 2] == FieldTableHead
    ensures ObjectSection(tm, fb, hl, skipTitle, def)[HeaderSize(skipTitle, def) - 1] == FieldTableRule
  {
    var fs := FieldList(def, def.kind).value;
    var rows := FieldRows(tm, fb, fs);
    FieldRowsIndex(tm, fb, fs);
    var header := ObjectHeader(hl, skipTitle, def);
    var h := HeaderSize(skipTitle, def);
    assert |header| == h && header[h - 2] == FieldTableHead && header[h - 1] == FieldTableRule;
    assert !skipTitle ==> header[0] == TypeHeading(hl, def.name);
    var s := ObjectSection(tm, fb, hl, skipTitle, def);
    assert s == header + rows;
  }

  /** After the header, row `i` is field `i`'s row, in declaration order. */
  lemma ObjectSectionRows(tm: TypeMap, fb: Fallback, hl: nat, skipTitle: bool, def: TypeDef)
    requires ObjectRenderable(def)
    ensures |ObjectSection(tm, fb, hl, skipTitle, def)| == HeaderSize(skipTitle, def) + |FieldList(def, def.kind).value|
    ensures forall i :: 0 <= i < |FieldList(def, def.kind).value| ==>
      ObjectSection(tm, fb, hl, skipTitle, def)[HeaderSize(skipTitle, def) + i] == FieldRow(tm, fb, FieldList(def, def.kind).value[i])
  {
    var fs := FieldList(def, def.kind).value;
    var rows := FieldRows(tm, fb, fs);
    FieldRowsIndex(tm, fb, fs);
    ObjectHeaderSize(hl, skipTitle, def);
    var h := HeaderSize(skipTitle, def);
    var s := ObjectSection(tm, fb, hl, skipTitle, def);
    forall i | 0 <= i < |fs| ensures s[h + i] == FieldRow(tm, fb, fs[i]) {
      assert s[h + i] == rows[i];
    }
  }

  lemma ObjectHeaderSize(hl: nat, skipTitle: bool, def: TypeDef)
    ensures |ObjectHeader(hl, skipTitle, def)| == HeaderSize(skipTitle, def)
  {
  }

  // ---------------------------------------------------------------------------
  // Enum sections
  // ---------------------------------------------------------------------------

  /** Every value has a name for `toEnumDescription`. */
  predicate ValuesNamed(vs: seq<EnumValue>) { forall i :: 0 <= i < |vs| ==> |vs[i].name| > 0 }

  /** An enum the source can render: it has a value list of named values. */
  predicate EnumRenderable(def: TypeDef) {
    def.enumValues.Some? && ValuesNamed(def.enumValues.value)
  }

  /** A row of a value table: the value and its description from its name. */
  function ValueRow(v: EnumValue): string
    requires |v.name| > 0
  {
    "| <font color=\"#FFC0CBH\" > `" + v.name + "` </font> | " + ToEnumDescription(v.name) + " |"
  }

  function ValueRows(vs: seq<EnumValue>): seq<string>
    requires ValuesNamed(vs)
  {
    if |vs| == 0 then []
    else
      assert ValuesNamed(vs[..|vs| - 1]);
      ValueRows(vs[..|vs| - 1]) + [ValueRow(vs[|vs| - 1])]
  }

  /** Row `i` describes value `i`, and there is no other. */
  lemma {:induction false} ValueRowsIndex(vs: seq<EnumValue>)
    requires ValuesNamed(vs)
    ensures |ValueRows(vs)| == |vs|
    ensures forall i :: 0 <= i < |vs| ==> ValueRows(vs)[i] == ValueRow(vs[i])
  {
    if |vs| > 0 {
      var init := vs[..|vs| - 1];
      ValueRowsIndex(init);
      forall i | 0 <= i < |vs| - 1 ensures ValueRows(vs)[i] == ValueRow(vs[i]) {
        assert init[i] == vs[i];
      }
    }
  }

  const ValueTableHead := "\n| Value | Description  |"
  const ValueTableRule := "| ---------- | ------ |"

  /** What the enum loop of `renderSchema` prints for one enum. */
  function EnumSection(hl: nat, def: TypeDef): seq<string>
    requires EnumRenderable(def)
  {
    [TypeHeading(hl, def.name)] + SectionDescription(def.description) + [ValueTableHead, ValueTableRule]
    + ValueRows(def.enumValues.value) + ["\n"]
  }

  method RenderEnum(hl: nat, def: TypeDef) returns (lines: seq<string>)
    requires EnumRenderable(def)
    ensures lines == EnumSection(hl, def)
  {
    lines := [TypeHeading(hl, def.name)];
    if Truthy(def.description) {
      lines := lines + [def.description.value + "\n"];
    }
    assert lines == [TypeHeading(hl, def.name)] + SectionDescription(def.description);
    lines := lines + [ValueTableHead, ValueTableRule];
    ghost var header := lines;
    var values := def.enumValues.value;
    for i := 0 to |values|
      invariant ValuesNamed(values[..i])
      invariant lines == header + ValueRows(values[..i])
    {
      lines := lines + ["| <font color=\"#FFC0CBH\" > `" + values[i].name + "` </font> | " + ToEnumDescription(values[i].name) + " |"];
      assert values[..i + 1][..i] == values[..i];
    }
    assert values[..|values|] == values;
    lines := lines + ["\n"];
  }

  /** The value table lists every value once, in declaration order, each
      row describing that value. */
  lemma EnumSectionLayout(hl: nat, def: TypeDef)
    requires EnumRenderable(def)
    ensures var s := EnumSection(hl, def);
      var vs := def.enumValues.value;
      var h := 3 + (if Truthy(def.description) then 1 else 0);
      && |s| == h + |vs| + 1
      && s[0] == TypeHeading(hl, def.name) && s[|s| - 1] == "\n"
      && forall i :: 0 <= i < |vs| ==> s[h + i] == ValueRow(vs[i])
  {
    ValueRowsIndex(def.enumValues.value);
  }

  // ---------------------------------------------------------------------------
  // Blocks of sections, one per type of a bucket
  // ---------------------------------------------------------------------------

  predicate AllObjectsRenderable(defs: seq<TypeDef>) { forall i :: 0 <= i < |defs| ==> ObjectRenderable(defs[i]) }

  predicate AllEnumsRenderable(defs: seq<TypeDef>) { forall i :: 0 <= i < |defs| ==> EnumRenderable(defs[i]) }

  /** `types.forEach(type => renderObject(type, ...))`. */
  function ObjectSections(tm: TypeMap, fb: Fallback, hl: nat, defs: seq<TypeDef>): seq<string>
    requires AllObjectsRenderable(defs)
  {
    if |defs| == 0 then []
    else
      assert AllObjectsRenderable(defs[..|defs| - 1]);
      ObjectSections(tm, fb, hl, defs[..|defs| - 1]) + ObjectSection(tm, fb, hl, false, defs[|defs| - 1])
  }

  /** The enums' sections, one after the other. */
  function EnumSections(hl: nat, defs: seq<TypeDef>): seq<string>
    requires AllEnumsRenderable(defs)
  {
    if |defs| == 0 then []
    else
      assert AllEnumsRenderable(defs[..|defs| - 1]);
      EnumSections(hl, defs[..|defs| - 1]) + EnumSection(hl, defs[|defs| - 1])
  }

  method RenderObjects(tm: TypeMap, fb: Fallback, hl: nat, defs: seq<TypeDef>) returns (lines: seq<string>)
    requires AllObjectsRenderable(defs)
    ensures lines == ObjectSections(tm, fb, hl, defs)
  {
    lines := [];
    for i := 0 to |defs|
      invariant AllObjectsRenderable(defs[..i])
      invariant lines == ObjectSections(tm, fb, hl, defs[..i])
    {
      var section := RenderObject(tm, fb, hl, false, defs[i]);
      lines := lines + section;
      assert defs[..i + 1][..i] == defs[..i];
    }
    assert defs[..|defs|] == defs;
  }

  method RenderEnums(hl: nat, defs: seq<TypeDef>) returns (lines: seq<string>)
    requires AllEnumsRenderable(defs)
    ensures lines == EnumSections(hl, defs)
  {
    lines := [];
    for i := 0 to |defs|
      invariant AllEnumsRenderable(defs[..i])
      invariant lines == EnumSections(hl, defs[..i])
    {
      var section := RenderEnum(hl, defs[i]);
      lines := lines + section;
      assert defs[..i + 1][..i] == defs[..i];
    }
    assert defs[..|defs|] == defs;
  }

  // ---------------------------------------------------------------------------
  // Table of contents
  // ---------------------------------------------------------------------------

  /** A cell of the table: the type's name, linked to its anchor. */
  function TocCell(name: string): string {
    "<td style=\"border:0\"><a href=\"#" + AnchorId(name) + "\">" + name + "</a></td>"
  }

  const RowOpen := "<tr style=\"border:0;background:none\">\n"
  const RowBreak := "</tr>\n<tr style=\"border:0;background:none\">\n"
  const RowClose := "</tr>\n"

  /** The cells of the first `k` types, with a row break after every cell
      whose 1-based position is a multiple of five. */
  function TocCells(defs: seq<TypeDef>, k: nat): seq<string>
    requires k <= |defs|
  {
    if k == 0 then []
    else TocCells(defs, k - 1) + [TocCell(defs[k - 1].name)] + (if k % 5 == 0 then [RowBreak] else [])
  }

  /** One row group of the table: nothing for an empty bucket. */
  function TocGroup(defs: seq<TypeDef>): seq<string> {
    if |defs| == 0 then [] else [RowOpen] + TocCells(defs, |defs|) + [RowClose]
  }

  /** The `forEach((type, i) => ...)` loop of one row group. */
  method RenderTocGroup(defs: seq<TypeDef>) returns (lines: seq<string>)
    ensures lines == TocGroup(defs)
  {
    lines := [];
    if |defs| > 0 {
      lines := lines + [RowOpen];
      for i := 0 to |defs|
        invariant lines == [RowOpen] + TocCells(defs, i)
      {
        lines := lines + [TocCell(defs[i].name)];
        ghost var cell := lines;
        if (i + 1) % 5 == 0 {
          lines := lines + [RowBreak];
        }
        assert lines == cell + (if (i + 1) % 5 == 0 then [RowBreak] else []);
      }
      lines := lines + [RowClose];
    }
  }

  /** `k` cells take `k + k / 5` lines: one break per completed row of five. */
  lemma {:induction false} TocLength(defs: seq<TypeDef>, k: nat)
    requires k <= |defs|
    ensures |TocCells(defs, k)| == k + k / 5
  {
    if k > 0 {
      TocLength(defs, k - 1);
    }
  }

  /** Cell `j` stands at line `j + j / 5`, and is followed by a row break
      exactly when `j + 1` is a multiple of five. */
  lemma {:induction false} TocCellAt(defs: seq<TypeDef>, k: nat, j: nat)
    requires j < k <= |defs|
    ensures |TocCells(defs, k)| == k + k / 5
    ensures j + j / 5 < |TocCells(defs, k)|
    ensures (j + 1) % 5 == 0 ==> j + j / 5 + 1 < |TocCells(defs, k)|
    ensures TocCells(defs, k)[j + j / 5] == TocCell(defs[j].name)
    ensures (j + 1) % 5 == 0 ==> TocCells(defs, k)[j + j / 5 + 1] == RowBreak
  {
    TocLength(defs, k - 1);
    TocLength(defs, k);
    var prev := TocCells(defs, k - 1);
    var cells := TocCells(defs, k);
    assert cells == prev + [TocCell(defs[k - 1].name)] + (if k % 5 == 0 then [RowBreak] else []);
    if j < k - 1 {
      TocCellAt(defs, k - 1, j);
      assert (j + 1) % 5 == 0 ==> j + 1 + j / 5 < |prev|;
      assert cells[j + j / 5] == prev[j + j / 5];
      assert (j + 1) % 5 == 0 ==> cells[j + j / 5 + 1] == prev[j + j / 5 + 1];
    } else {
      assert j + j / 5 == |prev|;
      assert (j + 1) % 5 == 0 <==> k % 5 == 0;
    }
  }

  /** The layout of the table rows: cell `j` at line `j + j / 5`; after it
      a row break when `j + 1` is a multiple of five, and the next cell
      otherwise. */
  lemma TocLayout(defs: seq<TypeDef>, k: nat)
    requires k <= |defs|
    ensures |TocCells(defs, k)| == k + k / 5
    ensures forall j :: 0 <= j < k ==> TocCells(defs, k)[j + j / 5] == TocCell(defs[j].name)
    ensures forall j :: 0 <= j < k && (j + 1) % 5 == 0 ==> TocCells(defs, k)[j + j / 5 + 1] == RowBreak
    ensures forall j :: 0 <= j < k - 1 && (j + 1) % 5 != 0 ==> TocCells(defs, k)[j + j / 5 + 1] == TocCell(defs[j + 1].name)
  {
    TocLength(defs, k);
    forall j | 0 <= j < k
      ensures TocCells(defs, k)[j + j / 5] == TocCell(defs[j].name)
      ensures (j + 1) % 5 == 0 ==> TocCells(defs, k)[j + j / 5 + 1] == RowBreak
    {
      TocCellAt(defs, k, j);
    }
    forall j | 0 <= j < k - 1 && (j + 1) % 5 != 0
      ensures TocCells(defs, k)[j + j / 5 + 1] == TocCell(defs[j + 1].name)
    {
      TocCellAt(defs, k, j + 1);
      assert (j + 1) / 5 == j / 5;
    }
  }

  /** The table: objects, inputs and enums, each a row group of its own. */
  function Toc(objects: seq<TypeDef>, inputs: seq<TypeDef>, enums: seq<TypeDef>): seq<string> {
    TocHead + TocGroup(objects) + TocGroup(inputs) + TocGroup(enums) + TocTail
  }

  const TocHead: seq<string> := ["## Representations\n", "<table>\n"]
  const TocTail: seq<string> := ["</table>\n"]

  method RenderToc(objects: seq<TypeDef>, inputs: seq<TypeDef>, enums: seq<TypeDef>) returns (lines: seq<string>)
    ensures lines == Toc(objects, inputs, enums)
  {
    var o := RenderTocGroup(objects);
    var i := RenderTocGroup(inputs);
    var e := RenderTocGroup(enums);
    lines := TocHead + o + i + e + TocTail;
  }

  /** Every cell links to the anchor of the section of the type it names:
      the cell's `href` is the `getTypeURL` link to that type, provided the
      type map resolves the name to a type of a linkable kind. */
  lemma TocLinksResolve(tm: TypeMap, fb: Fallback, hl: nat, def: TypeDef)
    requires def.name in tm && tm[def.name].kind != Scalar
    ensures var url := GetTypeURL(tm, fb, Named(def.kind, def.name));
      && url == Text("#" + AnchorId(def.name))
      && TocCell(def.name) == "<td style=\"border:0\"><a href=\"" + url.text + "\">" + def.name + "</a></td>"
      && TypeHeading(hl, def.name) == "\n" + Repeat("#", hl + 2) + " " + def.name + "\n<a id=\"" + url.text[1..] + "\"></a>"
  {
    var url := GetTypeURL(tm, fb, Named(def.kind, def.name));
    assert url.text[1..] == AnchorId(def.name);
  }

  // ---------------------------------------------------------------------------
  // API sections (`renderApi`)
  // ---------------------------------------------------------------------------

  /** `type.name === 'Query' ? 'GET' : 'POST'`. */
  function Verb(root: TypeDef): (r: string)
    ensures r == "GET" <==> root.name == "Query"
    ensures r == "POST" <==> root.name != "Query"
  {
    if root.name == "Query" then "GET" else "POST"
  }

  ghost predicate ArgsCovered(tm: TypeMap, rank: map<string, nat>, args: seq<Field>) {
    forall i :: 0 <= i < |args| ==> Covered(Markdown, tm, rank, args[i].typ)
  }

  /** A field `renderApi` can render: it has a name for `toAPIName`, its
      result type can be synthesised, and when it has a request body its
      arguments can be described and synthesised. */
  ghost predicate ApiFieldRenderable(tm: TypeMap, rank: map<string, nat>, root: TypeDef, f: Field) {
    && |f.name| > 0
    && Covered(Markdown, tm, rank, f.typ)
    && (HasRequestBody(root, f) ==> AllDescribable(f.args) && ArgsCovered(tm, rank, f.args))
  }

  ghost predicate ApiFieldsRenderable(tm: TypeMap, rank: map<string, nat>, root: TypeDef, fs: seq<Field>) {
    forall i :: 0 <= i < |fs| ==> ApiFieldRenderable(tm, rank, root, fs[i])
  }

  /** A root `renderApi` can render: the synthesis is well-founded, the field
      list is present and every field can be rendered. */
  ghost predicate ApiRenderable(tm: TypeMap, rank: map<string, nat>, root: TypeDef) {
    && Closed(Markdown, tm, rank)
    && FieldList(root, root.kind).Some?
    && ApiFieldsRenderable(tm, rank, root, FieldList(root, root.kind).value)
  }

  function ApiHeading(hl: nat, name: string): string
    requires |name| > 0
  {
    "\n" + Repeat("#", hl + 2) + " " + ToAPIName(name) + "\n<a id=\"" + AnchorId(name) + "\"></a>"
  }

  /** The description line of an operation, when the description is truthy. */
  function DescriptionLines(d: Option<string>): seq<string> {
    if Truthy(d) then [d.value] else []
  }

  function EndpointLine(verb: string, name: string): string { "> " + verb + " /" + name + "<br />" }

  function ResultRow(signature: string): string {
    "> | <font color=\"#FFC0CBH\" > `result` </font>&nbsp; " + signature + " | Result |"
  }

  function CurlLine(verb: string, name: string): string { "> curl -X " + verb + " /" + name + " \\ " }

  function PairLine(name: string, example: string): string { "> \"" + name + "\": " + example }

  function ResultLine(example: string): string { "> \"result\": " + example }

  const RequestHead := ["> Request Body:", ">", "> | Field  | Description   |", "> | ------ | ------------ |"]

  const ResponseHead := [">", "> Response Body:", ">", "> | Field  | Description   |", "> | ------ | ------------ |",
    "> | <font color=\"#FFC0CBH\" > `code`   </font>&nbsp; string               | Response code |",
    "> | <font color=\"#FFC0CBH\" > `message` </font>&nbsp; string               | Response message |",
    "> | <font color=\"#FFC0CBH\" > `isSuccess`   </font>&nbsp; bool           | Is Success |"]

  const ShellHead := [">", "> Request Example:", ">", "> ```shell"]

  const CurlHeaders := ["> --header \"Content-Type: application/json\" \\ ", "> --header \"Authorization:Bearer ...\" \\"]

  const DataHead := ["> --data-binary @- << DATA", "> {"]

  const DataTail := ["> }", "> DATA"]

  const ResponseExampleHead := ["> ```", "> Response Example:<br/>", "> HTTP Code: 200{{ok}} <br/>", ">", "> ```json", "> {",
    "> \"code\": \"success\",", "> \"message\": \"ok\",", "> \"isSuccess\": true,"]

  const ResponseExampleTail := ["> }", "> ```"]

  /** The argument table: printed exactly when there is a request body, with
      one row per argument. */
  function RequestTable(tm: TypeMap, fb: Fallback, root: TypeDef, f: Field): seq<string>
    requires HasRequestBody(root, f) ==> AllDescribable(f.args)
  {
    if HasRequestBody(root, f) then RequestHead + FieldRows(tm, fb, f.args) else []
  }

  /** `"name": example` for each argument, before the commas. */
  function DataPairs(tm: TypeMap, rank: map<string, nat>, args: seq<Field>): seq<string>
    requires Closed(Markdown, tm, rank) && ArgsCovered(tm, rank, args)
  {
    if |args| == 0 then []
    else
      assert ArgsCovered(tm, rank, args[..|args| - 1]);
      DataPairs(tm, rank, args[..|args| - 1]) + [PairLine(args[|args| - 1].name, Example(Markdown, tm, rank, args[|args| - 1].typ, 0))]
  }

  /** Pair `i` is argument `i`'s name and its synthesised example. */
  lemma {:induction false} DataPairsIndex(tm: TypeMap, rank: map<string, nat>, args: seq<Field>)
    requires Closed(Markdown, tm, rank) && ArgsCovered(tm, rank, args)
    ensures |DataPairs(tm, rank, args)| == |args|
    ensures forall i :: 0 <= i < |args| ==>
      DataPairs(tm, rank, args)[i] == PairLine(args[i].name, Example(Markdown, tm, rank, args[i].typ, 0))
  {
    if |args| > 0 {
      var init := args[..|args| - 1];
      DataPairsIndex(tm, rank, init);
      forall i | 0 <= i < |args| - 1
        ensures DataPairs(tm, rank, args)[i] == PairLine(args[i].name, Example(Markdown, tm, rank, args[i].typ, 0))
      {
        assert init[i] == args[i];
      }
    }
  }

  /** The curl request body: printed exactly when there is a request body,
      one line per argument with commas between. */
  function RequestData(tm: TypeMap, rank: map<string, nat>, root: TypeDef, f: Field): seq<string>
    requires Closed(Markdown, tm, rank) && (HasRequestBody(root, f) ==> ArgsCovered(tm, rank, f.args))
  {
    if HasRequestBody(root, f) then DataHead + Terminated(DataPairs(tm, rank, f.args), ",") + DataTail else []
  }

  /** The heading, the description and the endpoint. */
  function ApiTitle(hl: nat, root: TypeDef, f: Field): seq<string>
    requires |f.name| > 0
  {
    [ApiHeading(hl, f.name)] + DescriptionLines(f.description) + [EndpointLine(Verb(root), f.name)]
  }

  /** The response table, ending in the row of the result's signature. */
  function ResponseTable(tm: TypeMap, fb: Fallback, f: Field): seq<string> {
    ResponseHead + [ResultRow(RenderType(tm, fb, f.typ))]
  }

  /** The heading, description, endpoint, argument table and response table. */
  function ApiRequest(tm: TypeMap, fb: Fallback, hl: nat, root: TypeDef, f: Field): seq<string>
    requires |f.name| > 0 && (HasRequestBody(root, f) ==> AllDescribable(f.args))
  {
    ApiTitle(hl, root, f) + RequestTable(tm, fb, root, f) + ResponseTable(tm, fb, f)
  }

  /** The curl request, with its body when there is one. */
  function CurlRequest(tm: TypeMap, rank: map<string, nat>, root: TypeDef, f: Field): seq<string>
    requires Closed(Markdown, tm, rank) && (HasRequestBody(root, f) ==> ArgsCovered(tm, rank, f.args))
  {
    ShellHead + [CurlLine(Verb(root), f.name)] + CurlHeaders + RequestData(tm, rank, root, f)
  }

  /** The response example, ending in the synthesised result. */
  function ResponseExample(tm: TypeMap, rank: map<string, nat>, f: Field): seq<string>
    requires Closed(Markdown, tm, rank) && Covered(Markdown, tm, rank, f.typ)
  {
    ResponseExampleHead + [ResultLine(Example(Markdown, tm, rank, f.typ, 1))] + ResponseExampleTail
  }

  /** The request and response examples. */
  function ApiExamples(tm: TypeMap, rank: map<string, nat>, root: TypeDef, f: Field): seq<string>
    requires ApiFieldRenderable(tm, rank, root, f) && Closed(Markdown, tm, rank)
  {
    CurlRequest(tm, rank, root, f) + ResponseExample(tm, rank, f)
  }

  /** Everything `renderApi` prints for one field of the root. */
  function ApiBlock(tm: TypeMap, fb: Fallback, rank: map<string, nat>, hl: nat, root: TypeDef, f: Field): seq<string>
    requires ApiFieldRenderable(tm, rank, root, f) && Closed(Markdown, tm, rank)
  {
    ApiRequest(tm, fb, hl, root, f) + ApiExamples(tm, rank, root, f)
  }

  /** The argument table is there exactly when the root is not an input
      object and the field has arguments, with a row per argument. */
  lemma RequestTablePresence(tm: TypeMap, fb: Fallback, root: TypeDef, f: Field)
    requires HasRequestBody(root, f) ==> AllDescribable(f.args)
    ensures |RequestTable(tm, fb, root, f)| == if HasRequestBody(root, f) then |RequestHead| + |f.args| else 0
    ensures HasRequestBody(root, f) ==> forall i :: 0 <= i < |f.args| ==>
      RequestTable(tm, fb, root, f)[|RequestHead| + i] == FieldRow(tm, fb, f.args[i])
  {
    if HasRequestBody(root, f) {
      var rows := FieldRows(tm, fb, f.args);
      FieldRowsIndex(tm, fb, f.args);
      assert RequestTable(tm, fb, root, f) == RequestHead + rows;
      forall i | 0 <= i < |f.args|
        ensures RequestTable(tm, fb, root, f)[|RequestHead| + i] == FieldRow(tm, fb, f.args[i])
      {
        assert (RequestHead + rows)[|RequestHead| + i] == rows[i];
      }
    }
  }

  /** The request body is there under the same condition, with a line per
      argument between its opening and closing lines. */
  lemma RequestDataPresence(tm: TypeMap, rank: map<string, nat>, root: TypeDef, f: Field)
    requires Closed(Markdown, tm, rank) && (HasRequestBody(root, f) ==> ArgsCovered(tm, rank, f.args))
    ensures |RequestData(tm, rank, root, f)| == if HasRequestBody(root, f) then |DataHead| + |f.args| + |DataTail| else 0
  {
    if HasRequestBody(root, f) {
      DataPairsIndex(tm, rank, f.args);
    }
  }

  /** The request body, read as one text with its lines joined, is the
      argument pairs separated by commas: a comma after every argument but
      the last. */
  lemma RequestBodyIsCommaSeparated(tm: TypeMap, rank: map<string, nat>, root: TypeDef, f: Field)
    requires Closed(Markdown, tm, rank) && HasRequestBody(root, f) && ArgsCovered(tm, rank, f.args)
    ensures var r := RequestData(tm, rank, root, f);
      JoinStrings(r[|DataHead|..|r| - |DataTail|], "\n") == JoinStrings(DataPairs(tm, rank, f.args), ",\n")
  {
    var r := RequestData(tm, rank, root, f);
    var pairs := DataPairs(tm, rank, f.args);
    assert r[|DataHead|..|r| - |DataTail|] == Terminated(pairs, ",");
    TerminatedJoin(pairs, ",", "\n");
    assert "," + "\n" == ",\n";
  }

  /** The lines of the curl request body between `{` and `}`. */
  method RenderDataLines(tm: TypeMap, ghost rank: map<string, nat>, args: seq<Field>) returns (lines: seq<string>)
    requires Closed(Markdown, tm, rank) && ArgsCovered(tm, rank, args)
    ensures lines == Terminated(DataPairs(tm, rank, args), ",")
  {
    ghost var pairs := DataPairs(tm, rank, args);
    DataPairsIndex(tm, rank, args);
    lines := [];
    for i := 0 to |args|
      invariant lines == Terminated(pairs, ",")[..i]
    {
      var example := RenderParameters(Markdown, tm, rank, args[i].typ, 0);
      var s := PairLine(args[i].name, example);
      if i < |args| - 1 {
        s := s + ",";
      } else {
        assert s + "" == s;
      }
      lines := lines + [s];
      assert Terminated(pairs, ",")[..i + 1] == Terminated(pairs, ",")[..i] + [s];
    }
    assert Terminated(pairs, ",")[..|args|] == Terminated(pairs, ",");
  }

  /** The heading, the description and the endpoint line. */
  method RenderApiTitle(hl: nat, root: TypeDef, field: Field) returns (lines: seq<string>)
    requires |field.name| > 0
    ensures lines == ApiTitle(hl, root, field)
  {
    lines := [ApiHeading(hl, field.name)];
    if Truthy(field.description) {
      lines := lines + [field.description.value];
    }
    assert lines == [ApiHeading(hl, field.name)] + DescriptionLines(field.description);
    lines := lines + [EndpointLine(if root.name == "Query" then "GET" else "POST", field.name)];
  }

  /** The argument table, when there is a request body. */
  method RenderRequestTable(tm: TypeMap, fb: Fallback, root: TypeDef, field: Field) returns (lines: seq<string>)
    requires HasRequestBody(root, field) ==> AllDescribable(field.args)
    ensures lines == RequestTable(tm, fb, root, field)
  {
    var isInputObject := root.kind == InputObject;
    lines := [];
    if !isInputObject && |field.args| > 0 {
      var rows := RenderRows(tm, fb, field.args);
      lines := RequestHead + rows;
    }
  }

  /** The heading, endpoint and table part of the `fields.forEach` body. */
  method RenderApiRequest(tm: TypeMap, fb: Fallback, hl: nat, root: TypeDef, field: Field) returns (lines: seq<string>)
    requires |field.name| > 0 && (HasRequestBody(root, field) ==> AllDescribable(field.args))
    ensures lines == ApiRequest(tm, fb, hl, root, field)
  {
    var title := RenderApiTitle(hl, root, field);
    var table := RenderRequestTable(tm, fb, root, field);
    lines := title + table + (ResponseHead + [ResultRow(RenderType(tm, fb, field.typ))]);
  }

  /** The curl command, with the request body when there is one. */
  method RenderCurlRequest(tm: TypeMap, ghost rank: map<string, nat>, root: TypeDef, field: Field) returns (lines: seq<string>)
    requires Closed(Markdown, tm, rank) && (HasRequestBody(root, field) ==> ArgsCovered(tm, rank, field.args))
    ensures lines == CurlRequest(tm, rank, root, field)
  {
    var isInputObject := root.kind == InputObject;
    lines := ShellHead + [CurlLine(if root.name == "Query" then "GET" else "POST", field.name)] + CurlHeaders;
    ghost var before := lines;
    if !isInputObject && |field.args| > 0 {
      var data := RenderDataLines(tm, rank, field.args);
      lines := lines + (DataHead + data + DataTail);
    }
    assert lines == before + RequestData(tm, rank, root, field);
  }

  /** The example part of the `fields.forEach` body. */
  method RenderApiExamples(tm: TypeMap, ghost rank: map<string, nat>, root: TypeDef, field: Field) returns (lines: seq<string>)
    requires ApiFieldRenderable(tm, rank, root, field) && Closed(Markdown, tm, rank)
    ensures lines == ApiExamples(tm, rank, root, field)
  {
    var curl := RenderCurlRequest(tm, rank, root, field);
    var result := RenderParameters(Markdown, tm, rank, field.typ, 1);
    lines := curl + (ResponseExampleHead + [ResultLine(result)] + ResponseExampleTail);
  }

  /** The `fields.forEach(field => ...)` body of `renderApi`. */
  method RenderApiField(tm: TypeMap, fb: Fallback, ghost rank: map<string, nat>, hl: nat, root: TypeDef, field: Field)
    returns (lines: seq<string>)
    requires ApiFieldRenderable(tm, rank, root, field) && Closed(Markdown, tm, rank)
    ensures lines == ApiBlock(tm, fb, rank, hl, root, field)
  {
    var request := RenderApiRequest(tm, fb, hl, root, field);
    var examples := RenderApiExamples(tm, rank, root, field);
    lines := request + examples;
  }

  /** The blocks of the first `k` fields, one after the other. */
  function ApiBlocks(tm: TypeMap, fb: Fallback, rank: map<string, nat>, hl: nat, root: TypeDef, fs: seq<Field>, k: nat): seq<string>
    requires Closed(Markdown, tm, rank) && ApiFieldsRenderable(tm, rank, root, fs) && k <= |fs|
  {
    if k == 0 then [] else ApiBlocks(tm, fb, rank, hl, root, fs, k - 1) + ApiBlock(tm, fb, rank, hl, root, fs[k - 1])
  }

  /** What `renderApi(root, ...)` prints: one block per field. */
  function ApiSection(tm: TypeMap, fb: Fallback, rank: map<string, nat>, hl: nat, root: TypeDef): seq<string>
    requires ApiRenderable(tm, rank, root)
  {
    var fs := FieldList(root, root.kind).value;
    ApiBlocks(tm, fb, rank, hl, root, fs, |fs|)
  }

  method RenderApi(tm: TypeMap, fb: Fallback, ghost rank: map<string, nat>, hl: nat, root: TypeDef) returns (lines: seq<string>)
    requires ApiRenderable(tm, rank, root)
    ensures lines == ApiSection(tm, fb, rank, hl, root)
  {
    var fields := FieldList(root, root.kind).value;
    lines := [];
    for i := 0 to |fields|
      invariant lines == ApiBlocks(tm, fb, rank, hl, root, fields, i)
    {
      var block := RenderApiField(tm, fb, rank, hl, root, fields[i]);
      lines := lines + block;
    }
  }

  /** The endpoint line, which closes the title, and the curl line, which
      follows the shell head, name the same verb: GET exactly for the root
      named `Query`, POST otherwise. */
  lemma ApiVerb(hl: nat, tm: TypeMap, rank: map<string, nat>, root: TypeDef, f: Field)
    requires |f.name| > 0 && Closed(Markdown, tm, rank) && (HasRequestBody(root, f) ==> ArgsCovered(tm, rank, f.args))
    ensures |ApiTitle(hl, root, f)| == (if Truthy(f.description) then 3 else 2)
    ensures ApiTitle(hl, root, f)[|ApiTitle(hl, root, f)| - 1] == EndpointLine(if root.name == "Query" then "GET" else "POST", f.name)
    ensures |CurlRequest(tm, rank, root, f)| > |ShellHead|
    ensures CurlRequest(tm, rank, root, f)[|ShellHead|] == CurlLine(if root.name == "Query" then "GET" else "POST", f.name)
  {
    var curl := CurlRequest(tm, rank, root, f);
    assert curl == ShellHead + ([CurlLine(Verb(root), f.name)] + CurlHeaders + RequestData(tm, rank, root, f));
  }

  // ---------------------------------------------------------------------------
  // renderSchema
  // ---------------------------------------------------------------------------

  /** The heading above a root's API section: empty for the conventional
      names, the name in parentheses otherwise. */
  function RootHeading(hl: nat, root: TypeDef, conventional: string): string {
    "\n" + Repeat("#", hl + 1) + " " + (if root.name == conventional then "" else " (" + root.name + ")")
  }

  /** The partition `renderSchema` computes before printing, sorted. */
  datatype Buckets = Buckets(objects: seq<TypeDef>, inputs: seq<TypeDef>, enums: seq<TypeDef>)

  /** What the sorted buckets of the visible types `v` are: each is its
      filter result under the stable sort by name (`Sorting.StableSortSpec`);
      the roots are not among the objects. */
  predicate SortedBuckets(v: seq<TypeDef>, q: Option<nat>, m: Option<nat>, b: Buckets) {
    && b.objects == StableSort(Bucket(v, Object, Roots(q, m)))
    && b.inputs == StableSort(Bucket(v, InputObject, {}))
    && b.enums == StableSort(Bucket(v, Enum, {}))
  }

  predicate BucketsRenderable(b: Buckets) {
    AllObjectsRenderable(b.objects) && AllObjectsRenderable(b.inputs) && AllEnumsRenderable(b.enums)
  }

  /** Every visible object, input object and enum can be rendered. */
  predicate TypesRenderable(v: seq<TypeDef>) {
    && (forall t :: t in v && (t.kind == Object || t.kind == InputObject) ==> ObjectRenderable(t))
    && (forall t :: t in v && t.kind == Enum ==> EnumRenderable(t))
  }

  /** A root found in `v` whose API section can be rendered. */
  ghost predicate RootRenderable(tm: TypeMap, rank: map<string, nat>, v: seq<TypeDef>, r: Option<nat>) {
    r.Some? ==> r.value < |v| && ApiRenderable(tm, rank, v[r.value])
  }

  /** Everything `renderSchema` reads can be rendered: the types of the
      printed buckets, and the roots. */
  ghost predicate SchemaRenderable(s: Schema, rank: map<string, nat>) {
    var v := Visible(s.types);
    var tm := BuildTypeMap(s.types);
    && TypesRenderable(v)
    && RootRenderable(tm, rank, v, FindRoot(v, s.queryType))
    && RootRenderable(tm, rank, v, FindRoot(v, s.mutationType))
  }

  /** The title line, the prologue and the table of contents. */
  function Preamble(o: Options, b: Buckets): seq<string> {
    TitleLines(o) + PrologueLines(o) + (if o.skipTableOfContents then [] else Toc(b.objects, b.inputs, b.enums))
  }

  /** The title heading, unless `skipTitle`. */
  function TitleLines(o: Options): seq<string> {
    if o.skipTitle then [] else [Repeat("#", HeadingLevel(o)) + " " + Title(o) + "\n"]
  }

  /** The prologue, when it is set. */
  function PrologueLines(o: Options): seq<string> {
    if o.prologue != "" then [o.prologue + "\n"] else []
  }

  /** The type sections: objects, then input objects, then enums. */
  function Sections(tm: TypeMap, fb: Fallback, hl: nat, b: Buckets): seq<string>
    requires BucketsRenderable(b)
  {
    ObjectSections(tm, fb, hl, b.objects) + ObjectSections(tm, fb, hl, b.inputs) + EnumSections(hl, b.enums)
  }

  /** A root's heading and API section, when the root was found. */
  function RootPart(tm: TypeMap, fb: Fallback, rank: map<string, nat>, hl: nat, v: seq<TypeDef>, r: Option<nat>, conventional: string): seq<string>
    requires RootRenderable(tm, rank, v, r)
  {
    if r.Some? then [RootHeading(hl, v[r.value], conventional)] + ApiSection(tm, fb, rank, hl, v[r.value]) else []
  }

  /** The whole document for given sorted buckets. */
  function Document(o: Options, s: Schema, rank: map<string, nat>, b: Buckets): seq<string>
    requires SchemaRenderable(s, rank) && BucketsRenderable(b)
  {
    var hl := HeadingLevel(o);
    var v := Visible(s.types);
    var tm := BuildTypeMap(s.types);
    Preamble(o, b)
    + Sections(tm, o.unknownTypeURL, hl, b)
    + ["\n## API Category"]
    + RootPart(tm, o.unknownTypeURL, rank, hl, v, FindRoot(v, s.queryType), "Query")
    + RootPart(tm, o.unknownTypeURL, rank, hl, v, FindRoot(v, s.mutationType), "Mutation")
    + (if o.epilogue != "" then ["\n" + o.epilogue] else [])
  }

  /** The filters and `sortBy` calls of `renderSchema`. */
  method SortBuckets(v: seq<TypeDef>, query: Option<nat>, mutation: Option<nat>) returns (b: Buckets)
    requires TypesRenderable(v)
    ensures SortedBuckets(v, query, mutation, b) && BucketsRenderable(b)
  {
    var objects := SortedCopy(Bucket(v, Object, Roots(query, mutation)));
    var inputs := SortedCopy(Bucket(v, InputObject, {}));
    var enums := SortedCopy(Bucket(v, Enum, {}));
    b := Buckets(objects, inputs, enums);
    BucketMembers(v, Object, Roots(query, mutation), objects);
    BucketMembers(v, InputObject, {}, inputs);
    BucketMembers(v, Enum, {}, enums);
  }

  method RenderPreamble(o: Options, b: Buckets) returns (lines: seq<string>)
    ensures lines == Preamble(o, b)
  {
    lines := [];
    if !o.skipTitle {
      lines := lines + [Repeat("#", HeadingLevel(o)) + " " + Title(o) + "\n"];
    }
    assert lines == TitleLines(o);
    if o.prologue != "" {
      lines := lines + [o.prologue + "\n"];
    }
    assert lines == TitleLines(o) + PrologueLines(o);
    if !o.skipTableOfContents {
      var toc := RenderToc(b.objects, b.inputs, b.enums);
      lines := lines + toc;
    }
  }

  method RenderSections(tm: TypeMap, fb: Fallback, hl: nat, b: Buckets) returns (lines: seq<string>)
    requires BucketsRenderable(b)
    ensures lines == Sections(tm, fb, hl, b)
  {
    var objects := RenderObjects(tm, fb, hl, b.objects);
    var inputs := RenderObjects(tm, fb, hl, b.inputs);
    var enums := RenderEnums(hl, b.enums);
    lines := objects + inputs + enums;
  }

  method RenderRoot(tm: TypeMap, fb: Fallback, ghost rank: map<string, nat>, hl: nat, v: seq<TypeDef>, r: Option<nat>, conventional: string)
    returns (lines: seq<string>)
    requires RootRenderable(tm, rank, v, r)
    ensures lines == RootPart(tm, fb, rank, hl, v, r, conventional)
  {
    lines := [];
    if r.Some? {
      var root := v[r.value];
      var api := RenderApi(tm, fb, rank, hl, root);
      lines := [RootHeading(hl, root, conventional)] + api;
    }
  }

  /** `renderSchema(schema, options)`: the lines printed, and the sorted
      buckets they were printed from. */
  method RenderSchema(s: Schema, o: Options, ghost rank: map<string, nat>) returns (lines: seq<string>, b: Buckets)
    requires SchemaRenderable(s, rank)
    ensures SortedBuckets(Visible(s.types), FindRoot(Visible(s.types), s.queryType), FindRoot(Visible(s.types), s.mutationType), b)
    ensures BucketsRenderable(b)
    ensures lines == Document(o, s, rank, b)
  {
    var hl := HeadingLevel(o);
    var types := Visible(s.types);
    var typeMap := BuildTypeMap(s.types);
    var query := FindRoot(types, s.queryType);
    var mutation := FindRoot(types, s.mutationType);
    b := SortBuckets(types, query, mutation);
    lines := RenderPreamble(o, b);
    var sections := RenderSections(typeMap, o.unknownTypeURL, hl, b);
    lines := lines + sections + ["\n## API Category"];
    sections := RenderRoot(typeMap, o.unknownTypeURL, rank, hl, types, query, "Query");
    lines := lines + sections;
    sections := RenderRoot(typeMap, o.unknownTypeURL, rank, hl, types, mutation, "Mutation");
    lines := lines + sections;
    ghost var before := lines;
    if o.epilogue != "" {
      lines := lines + ["\n" + o.epilogue];
    }
    assert lines == before + (if o.epilogue != "" then ["\n" + o.epilogue] else []);
  }
}
