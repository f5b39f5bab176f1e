# graphql-markdown renderers in Dafny

This project models the two renderers of graphql-markdown. Both take the
result of a GraphQL introspection query, the `schema` with its `types`,
`queryType` and `mutationType`.

- `renderSchema` (src/renderSchema.js) writes a Markdown reference:
  - a title, a prologue and a table of contents of objects, inputs and enums,
    five names per row;
  - one section per object or input type, with a field table;
  - one section per enum, with a value table;
  - for the query and mutation roots, one API section per field, with a
    request table, a curl example and JSON examples built by
    `renderParameters`;
  - an epilogue.
- `renderOpenAPI` (src/renderOpenAPI.js) writes the same schema as an
  OpenAPI 3.0.1 JSON text:
  - an `info` header;
  - one path per root field, with its request body and its result
    reference;
  - components for the objects, inputs and enums.

The console printer is modelled by the sequence of lines handed to it. Each
emitting loop is a method that builds those lines, and its `ensures` ties the
result to a function of the inputs. Lemmas about those functions state what
the document contains.

Modules:

- `Optional`: `Option` and the JavaScript text of `undefined`.
- `Text`: ASCII case mapping, the name formatters' spacing, brackets,
  comma separation, and string order.
- `Introspection`: type references, definitions, the type map
  (`schema.types.reduce`), `getType`, the visible types, the roots and the
  kind buckets.
- `Links`: the `unknownTypeURL` option and the URL values `getTypeURL` can
  return.
- `Sorting`: `sortBy` as an in-place insertion sort under the JavaScript
  comparator. It is proved equal to a stable reference sort.
- `Examples`: `renderParameters`. Each source file has its own copy. The
  Markdown renderer calls its copy; the copy in src/renderOpenAPI.js is never
  called. One function with a dialect parameter models both. The copies differ
  in their leaf texts and in the keys: the OpenAPI copy lower-cases each field
  name (src/renderOpenAPI.js:225).
- `MarkdownTypes` and `MarkdownDocument`: the Markdown renderer.
- `OpenApiTypes` and `OpenApiDocument`: the OpenAPI renderer.

Two behaviours of the code that a reader may not expect, both modelled as
written:

- The OpenAPI verb is `post` for the query root and `get` for the mutation
  root.
- The `$ref` of a NON_NULL or LIST result names `null`. The reference is
  taken from the outer type's `name`, which introspection leaves null for
  wrappers.

## Model

| member | source | states |
|---|---|---|
| Introspection.TypeMapHoldsNames | src/renderSchema.js:283-285 | every type in `schema.types` has its name in the type map |
| Introspection.TypeMapLastWins | src/renderSchema.js:283-285 | the map holds, for each name, the last type of `schema.types` with that name |
| Introspection.TypeMapOnlyNames | src/renderOpenAPI.js:258-260 | every name the map holds is the name of some type in `schema.types` |
| Introspection.GetType | src/renderSchema.js:306-311 | `getType` gives the mapped definition of a held name, and undefined otherwise |
| Introspection.Visible | src/renderSchema.js:282 | a type is visible exactly when it is in `schema.types` and its name does not start with `__` |
| Introspection.FindRoot | src/renderSchema.js:312-317 | the root is the first visible type with the name `queryType`/`mutationType` gives, and none when there is no root name or no such type |
| Introspection.Bucket | src/renderSchema.js:318-325 | a type is in a bucket exactly when it is a visible type of the bucket's kind at a position other than the roots' |
| Introspection.BucketExcludes | src/renderSchema.js:318-320 | no bucket holds a `__` type, and with unique names no bucket holds a skipped root |
| Links.Raw | src/renderSchema.js:297-298 | a held SCALAR gets `unknownTypeURL` as given: no URL when absent, the prefix itself, or a truthy function value |
| Links.Unresolved | src/renderSchema.js:299-304 | an unknown name gets the function's result, the non-empty prefix followed by the URL, or no URL; never the function itself |
| Sorting.Compare | src/renderSchema.js:3-15 | the comparator is -1, 0 or 1 exactly as the names are less, equal or greater |
| Sorting.SortByName | src/renderSchema.js:3-15 | `sortBy(arr, 'name')` leaves the array equal to the stable reference sort of its old contents: sorted by name, a permutation, and entries of equal name in their old order |
| Sorting.SortedCopy | src/renderSchema.js:327-332 | a sorted bucket is the stable reference sort of the bucket: ordered by name, a permutation, ties in bucket order |
| Sorting.StableSortSpec | src/renderSchema.js:3-15 | the reference sort is ordered by name, a permutation of its input, and keeps the order of the entries of each name |
| Sorting.InsertKeepsTies | src/renderSchema.js:3-15 | inserting an entry after its ties adds it at the end of the entries with its name and moves no other entry of any name |
| Sorting.SortedTiesAgree | src/renderSchema.js:3-15 | two sequences sorted by name that keep the entries of each name in the same order are equal |
| Sorting.StableSortIsUnique | src/renderSchema.js:3-15 | any sequence sorted by name that keeps the entries of each name in their order in `s` is the reference sort of `s` |
| Sorting.BucketMembers | src/renderSchema.js:318-332 | every type of a sorted bucket is a visible type of the bucket's kind |
| MarkdownTypes.RenderNonNull | src/renderSchema.js:17-22 | the marker is `*` exactly for a NON_NULL type, and a space otherwise |
| MarkdownTypes.GetTypeURL | src/renderSchema.js:286-305 | held non-scalar names link to their lower-cased anchor; held scalars get the raw option; unknown names use the fallback chain |
| MarkdownTypes.RenderTypeUnwraps | src/renderSchema.js:24-38 | `RenderType` of any type is the base type's leaf text inside one bracket pair per LIST, and NON_NULL adds nothing; the leaf is a link to its URL when there is one, and the display name otherwise |
| MarkdownTypes.RenderTypeIgnoresNonNull | src/renderSchema.js:17-29 | wrapping in NON_NULL keeps the signature; only the marker shows requiredness |
| MarkdownTypes.ScalarSignatures | src/renderSchema.js:34-49 | scalars display their mapped names (`Int`, `Int32` and `Int64` read `int`); an unregistered scalar reads `undefined` |
| MarkdownTypes.LinkedKindsIgnoreFallback | src/renderSchema.js:286-299 | the link to a held non-scalar never depends on `unknownTypeURL` and is always shown |
| Text.SpaceRunsPlaces | src/renderSchema.js:101-109 | spacing capital runs adds one space per run: each character moves right by the runs started up to it, and a space comes just before each run |
| Text.SpaceCapsPlaces | src/renderOpenAPI.js:97-100 | spacing capitals adds one space per capital: each character moves right by the capitals up to it, and a space comes just before each capital |
| MarkdownTypes.ToAPIName | src/renderSchema.js:101-104 | the API name is the name with one space before each run of capitals and the first character raised: its length, where each character lands, and the space before each run |
| MarkdownTypes.ToAPINameRoundTrip | src/renderSchema.js:101-104 | removing the spaces from an API name gives the name back with its first letter raised |
| MarkdownTypes.ToDescription | src/renderSchema.js:106-109 | a description is the name lowered, with one space before each run of capitals and the first character raised: its length, where each lowered character lands, the space before each run, and no capital after the first character |
| MarkdownTypes.DescriptionIsLoweredAPIName | src/renderSchema.js:101-109 | a description and the API name are equal once both are lower-cased |
| MarkdownTypes.ToEnumDescription | src/renderSchema.js:111-114 | an enum description keeps the length; each underscore becomes a space, every other character is lowered, and the first character is then raised |
| OpenApiTypes.GetTypeURL | src/renderOpenAPI.js:261-270 | every held name, whatever its kind, links to its component pointer; unknown names use the fallback chain |
| OpenApiTypes.RenderTypeUnwraps | src/renderOpenAPI.js:25-34 | `RenderType` of any type is the base type's leaf text inside one bracket pair per LIST, and NON_NULL adds nothing; the leaf is its own name, linked to its URL when there is one |
| OpenApiTypes.KnownNamesAreLinked | src/renderOpenAPI.js:25-34 | a held name, scalars included, is always a link to `#/components/<title>/<name>` |
| OpenApiTypes.ScalarTypeTable | src/renderOpenAPI.js:396-405 | the JSON Schema names of the eight built-in scalars, and no name outside them |
| OpenApiTypes.ToDescription | src/renderOpenAPI.js:97-100 | a description is the name lowered, with a space before every capital and the first character raised: its length, where each lowered character lands, the space before each capital, and no capital after the first character |
| OpenApiTypes.DescriptionsAgree | src/renderOpenAPI.js:97-100 | the OpenAPI description equals the Markdown one for every name without two capitals in a row |
| OpenApiTypes.DescriptionsDiffer | src/renderOpenAPI.js:97-100 | `ID` is described as " i d" here and " id" by the Markdown renderer |
| Examples.RenderParameters | src/renderSchema.js:219-265 | the example lines equal `Example` of the type at that level, in both dialects |
| Examples.AppendIndent | src/renderSchema.js:249-251 | the indent appended is two spaces per level |
| Examples.AppendEntry | src/renderSchema.js:246-258 | one round of the field loop appends the field's keyed example, then a comma unless it is the last field |
| Examples.ExampleUnwraps | src/renderSchema.js:221-226 | `Example` of any type is its base type's example inside one bracket pair per LIST, one level deeper per wrapper |
| Examples.UnwrapNonNull | src/renderSchema.js:221-223 | NON_NULL adds nothing to an example but one level |
| Examples.UnwrapList | src/renderSchema.js:224-226 | LIST puts brackets around the example of its element |
| Examples.LeafExampleIgnoresLevel | src/renderSchema.js:227-237 | the example of a scalar, an enum or a name that does not expand does not depend on the level |
| Examples.EntriesPrefix | src/renderSchema.js:246-258 | after k fields the entries are their keyed examples joined by commas, and a trailing comma while fields remain |
| Examples.EntriesAreCommaSeparated | src/renderSchema.js:246-258 | all entries together are the keyed examples joined by commas |
| Examples.ObjectExample | src/renderSchema.js:241-264 | an object or input example is `{`, its entries joined by commas, and `}` on a new quoted line at the level's indent |
| Examples.MarkdownLeafExamples | src/renderSchema.js:227-237 | a scalar gives its default literal or `undefined`, an enum its first value quoted, and any other unexpanded name itself quoted |
| Examples.ScalarDefaultTable | src/renderSchema.js:51-60 | the default example literal of every built-in scalar |
| Examples.OpenApiLeafExamples | src/renderOpenAPI.js:201-217 | in OpenAPI, any name that does not expand gives its lower-cased name, quoted, inside one bracket pair per LIST |
| MarkdownDocument.RenderRows | src/renderSchema.js:83-98 | one table row per field, in order: name, marker, signature and description |
| MarkdownDocument.FieldRowsIndex | src/renderSchema.js:83-98 | the i-th row describes the i-th field |
| MarkdownDocument.RenderObjectHeader | src/renderSchema.js:62-82 | the anchor, the heading unless `skipTitle`, the description when truthy, and the table head |
| MarkdownDocument.RenderObject | src/renderSchema.js:62-99 | the printed section is the section function of the type |
| MarkdownDocument.ObjectSectionLayout | src/renderSchema.js:62-82 | the section's length, the heading at the heading level, and the table head and rule after the header |
| MarkdownDocument.ObjectSectionRows | src/renderSchema.js:83-98 | after the header, the i-th line of the section is the row of the i-th field |
| MarkdownDocument.RenderEnum | src/renderSchema.js:466-487 | the printed section is the enum section function of the type |
| MarkdownDocument.EnumSectionLayout | src/renderSchema.js:466-487 | the heading first, one value row per value in declaration order, and a closing blank line |
| MarkdownDocument.ValueRowsIndex | src/renderSchema.js:478-485 | the i-th value row describes the i-th enum value |
| MarkdownDocument.RenderObjects | src/renderSchema.js:450-462 | the sections of a bucket, one per type, in bucket order |
| MarkdownDocument.RenderEnums | src/renderSchema.js:464-488 | the enum sections, one per enum, in bucket order |
| MarkdownDocument.RenderTocGroup | src/renderSchema.js:352-366 | a row of cells for a non-empty bucket, one cell per type with a break after every fifth, and nothing for an empty one |
| MarkdownDocument.TocLength | src/renderSchema.js:355-364 | a group has one line per type plus one break per full row of five |
| MarkdownDocument.TocCellAt | src/renderSchema.js:355-364 | the cell of type i sits after i/5 row breaks, and a row break follows it when i+1 is a multiple of 5 |
| MarkdownDocument.TocLayout | src/renderSchema.js:352-366 | every type has its cell in order; a row break follows a cell exactly when its position plus one is a multiple of 5 |
| MarkdownDocument.RenderToc | src/renderSchema.js:342-448 | the table of contents lists objects, inputs and enums, in that order |
| MarkdownDocument.TocLinksResolve | src/renderSchema.js:357 | each contents link points at the anchor that type's section carries |
| MarkdownDocument.Verb | src/renderSchema.js:137 | the heading's verb is GET exactly for the root named `Query` |
| MarkdownDocument.ApiVerb | src/renderSchema.js:137 | the title line and the curl command use the same verb, GET exactly for `Query` |
| MarkdownDocument.RequestTablePresence | src/renderSchema.js:139-160 | the request table appears exactly when the field has arguments, with one row per argument |
| MarkdownDocument.RequestDataPresence | src/renderSchema.js:190-202 | the curl `--data` body appears exactly when the field has arguments |
| MarkdownDocument.RequestBodyIsCommaSeparated | src/renderSchema.js:190-202 | the `--data` body lists one pair per argument, comma-separated |
| MarkdownDocument.RenderDataLines | src/renderSchema.js:193-200 | the data lines are the pairs of the arguments, with a comma at the end of every pair line but the last |
| MarkdownDocument.DataPairsIndex | src/renderSchema.js:193-200 | the i-th pair belongs to the i-th argument |
| MarkdownDocument.RenderApiTitle | src/renderSchema.js:127-137 | the anchor, the heading and the endpoint line of a field |
| MarkdownDocument.RenderRequestTable | src/renderSchema.js:139-160 | the request table of a field |
| MarkdownDocument.RenderApiRequest | src/renderSchema.js:127-180 | the title, the request table and the response table |
| MarkdownDocument.RenderCurlRequest | src/renderSchema.js:181-202 | the curl example of a field |
| MarkdownDocument.RenderApiExamples | src/renderSchema.js:181-214 | the curl example and the JSON response example |
| MarkdownDocument.RenderApiField | src/renderSchema.js:126-215 | the whole API section of one field |
| MarkdownDocument.RenderApi | src/renderSchema.js:116-216 | one API section per field of the root, in order |
| MarkdownDocument.SortBuckets | src/renderSchema.js:318-332 | each bucket is its filter result under the stable sort by name: ordered by name, a permutation, and types of equal name in schema order |
| MarkdownDocument.RenderPreamble | src/renderSchema.js:334-448 | the title unless skipped, the prologue when given, and the contents unless skipped |
| MarkdownDocument.RenderSections | src/renderSchema.js:450-488 | object, input and enum sections, in that order |
| MarkdownDocument.RenderRoot | src/renderSchema.js:536-564 | a root's heading and API sections when the root exists, and nothing otherwise |
| MarkdownDocument.RenderSchema | src/renderSchema.js:267-569 | the printed document is the document function of the schema, and its buckets are the sorted buckets |
| OpenApiDocument.RefIsTypeURL | src/renderOpenAPI.js:49-76 | a property's `$ref` is the component URL of its base type |
| OpenApiDocument.PropertyBodyByKind | src/renderOpenAPI.js:49-76 | one NON_NULL is invisible; a LIST refers to its element by name (`null` when wrapped); an object, input, enum or interface gets a `$ref`; an unregistered scalar is typed `undefined`; a union gets nothing |
| OpenApiDocument.RenderProperties | src/renderOpenAPI.js:49-76 | one property per field, comma-separated |
| OpenApiDocument.RequiredNamesPresent | src/renderOpenAPI.js:77-92 | the required list is non-empty exactly when some field is NON_NULL |
| OpenApiDocument.RequiredNamesListed | src/renderOpenAPI.js:77-92 | a name is in the required list exactly when it is the quoted name of a NON_NULL field |
| OpenApiDocument.RequiredLinesUpTo | src/renderOpenAPI.js:77-92 | the required lines of the first fields are their NON_NULL names, comma-separated |
| OpenApiDocument.ObjectRequiredIsCommaSeparated | src/renderOpenAPI.js:77-92 | all required lines are the NON_NULL names with a comma between two names |
| OpenApiDocument.RenderRequired | src/renderOpenAPI.js:77-92 | the printed required list of an object |
| OpenApiDocument.RenderObject | src/renderOpenAPI.js:36-95 | the printed component of an object or input type |
| OpenApiDocument.ObjectComponentLayout | src/renderOpenAPI.js:36-95 | a component is its properties, comma-separated, then the required names, comma-separated |
| OpenApiDocument.ArgRequiredLinesUpTo | src/renderOpenAPI.js:158-168 | after k arguments the list is a stray comma when an optional argument came first, the required names comma-separated, and a comma when argument k is required |
| OpenApiDocument.ArgRequiredStrayComma | src/renderOpenAPI.js:158-168 | the list starts with a comma exactly when the first argument is optional and a later one is required |
| OpenApiDocument.RenderArgRequired | src/renderOpenAPI.js:158-168 | the printed required list of a request body |
| OpenApiDocument.Verb | src/renderOpenAPI.js:120 | the verb is `post` for the root named `Query` and `get` otherwise |
| OpenApiDocument.VerbsDisagree | src/renderOpenAPI.js:120 | the verb is always the opposite of the Markdown renderer's |
| OpenApiDocument.ResultRef | src/renderOpenAPI.js:181-182 | the result `$ref` names the field's type when it is named, and `null` when it is wrapped |
| OpenApiDocument.RequestBodyLayout | src/renderOpenAPI.js:126-172 | a request body is present exactly when the field has arguments, with its properties and required list |
| OpenApiDocument.RenderArgProperties | src/renderOpenAPI.js:130-154 | one property per argument, comma-separated |
| OpenApiDocument.RenderRequestBody | src/renderOpenAPI.js:126-172 | the printed request body of a field |
| OpenApiDocument.RenderApiField | src/renderOpenAPI.js:119-188 | the whole path of one field |
| OpenApiDocument.RenderApi | src/renderOpenAPI.js:107-190 | one path per field of the root, comma-separated |
| OpenApiDocument.EnumValuesInterleaved | src/renderOpenAPI.js:363-373 | an enum component lists its value names in order, with a comma between two names |
| OpenApiDocument.RenderEnumComponent | src/renderOpenAPI.js:363-373 | the printed component of an enum |
| OpenApiDocument.RenderObjectGroup | src/renderOpenAPI.js:340-345 | the components of a bucket, with a comma between two components |
| OpenApiDocument.RenderObjectEntry | src/renderOpenAPI.js:340-345 | one component, with a comma after it unless it is the last |
| OpenApiDocument.RenderEnumGroup | src/renderOpenAPI.js:362-377 | the enum components, with a comma between two components |
| OpenApiDocument.RenderEnumEntry | src/renderOpenAPI.js:362-377 | one enum component, with a comma after it unless it is the last |
| OpenApiDocument.RenderComponents | src/renderOpenAPI.js:336-393 | the object, input, enum and interface groups, each present group after the first opened by ` ,` |
| OpenApiDocument.ComponentsStraySeparator | src/renderOpenAPI.js:336-393 | the components start with a stray ` ,` exactly when there is no object but some input, enum or interface |
| OpenApiDocument.PathsStraySeparator | src/renderOpenAPI.js:312-335 | the paths start with a stray ` ,` exactly when there is a mutation root and no query path before it |
| OpenApiDocument.RenderPaths | src/renderOpenAPI.js:312-335 | the query's paths, then ` ,` and the mutation's paths |
| OpenApiDocument.SortBuckets | src/renderOpenAPI.js:283-297 | each bucket is its filter result under the stable sort by name: ordered by name, a permutation, and types of equal name in schema order |
| OpenApiDocument.RenderDescription | src/renderOpenAPI.js:305-309 | the info description is the prologue, or empty |
| OpenApiDocument.RenderHeader | src/renderOpenAPI.js:299-311 | the OpenAPI version, the title unless skipped, the description, the version and the tag |
| OpenApiDocument.RenderOpenApi | src/renderOpenAPI.js:242-394 | the printed document is the document function of the schema, and its buckets are the sorted buckets |

## Left out

- The console printer: lines are returned instead of printed, and the printer
  option is not modelled.
- The `__schema` unwrapping at the start of both renderers: the model starts
  from the unwrapped schema.
- Unicode case mapping: `toLowerCase` and `toUpperCase` are modelled for
  ASCII letters only.
- String order: the comparator of `sortBy` is modelled as code-unit order on
  `seq<char>`, which matches JavaScript for BMP text only.
- The scalar maps and the type map: only their own keys are modelled, not
  keys inherited from `Object.prototype`. This covers the scalar lookups and
  the `typeMap[...]` lookups of `getTypeURL` and `getType`
  (src/renderSchema.js:288, 307; src/renderOpenAPI.js:263, 272).
- An `unknownTypeURL` function: its result is an uninterpreted function of
  the type, and its source text stands in for the function when a
  template shows it.
- Cyclic schemas: `renderParameters` recurses without a bound in the source.
  The model requires a ghost rank that decreases along the expanded fields,
  so schemas where an example would recurse forever are excluded.
- Crashes become preconditions: an empty name given to a formatter, an object
  without its field list, and an enum example with no values.
- Options: an empty `title`, `prologue` or `epilogue` and a zero
  `headingLevel` are the values the source treats as not given. A negative
  heading level is not modelled.
- The scalars and unions buckets, and the Markdown interfaces bucket: the
  contents and sections that would use them are commented out in the source,
  so the model does not compute them. The OpenAPI interfaces are modelled.
- The HTML decoration around the Markdown tables is kept as fixed text. Its
  well-formedness is not stated.
- OpenAPI `renderNonNull` and `toEnumDescription`: defined in
  src/renderOpenAPI.js but called nowhere. Its `renderParameters`, also never
  called, is modelled by `Examples.Example` in the OpenAPI dialect, and
  `Examples.OpenApiLeafExamples` states its leaf texts.
  `OpenApiTypes.RenderType` is modelled too, though it is never called.
- OpenAPI options: `headingLevel`, `epilogue`, `skipTableOfContents` and
  `unknownTypeURL` do not change the OpenAPI output, so they are not modelled
  there.
- JSON validity of the OpenAPI text is not claimed. The stray-comma cases the
  source can produce are stated instead, by
  `OpenApiDocument.ArgRequiredStrayComma`,
  `OpenApiDocument.ComponentsStraySeparator` and
  `OpenApiDocument.PathsStraySeparator`.
- Sorting.SortByName: its contract mentions `old`. The same statement, that
  the result is the stable reference sort, is also proved on values by
  `Sorting.SortedCopy`.
