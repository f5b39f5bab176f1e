/** The GraphQL introspection data both renderers read: type references, type
    definitions, the type map built from the schema's type list, and the
    partition of the visible types into kind buckets. */
module Introspection {
  import opened Optional
  import opened Text

  /** The kinds a named type can have. LIST and NON_NULL are not kinds of named
      types: they are the wrapper constructors of `TypeRef`. */
  datatype Kind = Scalar | Object | InputObject | Enum | Interface | Union

  /** A field's or argument's type: a chain of wrappers around a named type. */
  datatype TypeRef = NonNull(ofType: TypeRef) | List(ofType: TypeRef) | Named(kind: Kind, name: string)
  {
    /** The named type at the bottom of the wrapper chain. */
    function Base(): (b: TypeRef)
      ensures b.Named?
    {
      match this
      case NonNull(t) => t.Base()
      case List(t) => t.Base()
      case Named(_, _) => this
    }

    /** How many LIST wrappers the chain holds. */
    function ListDepth(): nat {
      match this
      case NonNull(t) => t.ListDepth()
      case List(t) => 1 + t.ListDepth()
      case Named(_, _) => 0
    }

    /** How many wrappers (LIST or NON_NULL) the chain holds. */
    function Depth(): nat {
      match this
      case NonNull(t) => 1 + t.Depth()
      case List(t) => 1 + t.Depth()
      case Named(_, _) => 0
    }

    /** The `name` property of the reference: introspection gives wrappers `name: null`. */
    function RefName(): (r: Option<string>)
      ensures r.Some? <==> Named?
    {
      if Named? then Some(name) else None
    }
  }

  /** A field of an object or interface, an input field of an input object, or an
      argument of a field; only object and interface fields have arguments, the
      other two carry `args == []`. */
  datatype Field = Field(name: string, description: Option<string>, args: seq<Field>, typ: TypeRef)

  datatype EnumValue = EnumValue(name: string)

  /** An entry of the schema's type list. Lists a kind does not have are `None`
      (introspection's `null`). */
  datatype TypeDef = TypeDef(
    kind: Kind,
    name: string,
    description: Option<string>,
    fields: Option<seq<Field>>,
    inputFields: Option<seq<Field>>,
    enumValues: Option<seq<EnumValue>>)

  /** Root types are named; either may be absent. */
  datatype Schema = Schema(types: seq<TypeDef>, queryType: Option<string>, mutationType: Option<string>)

  type TypeMap = map<string, TypeDef>

  /** `isInputObject ? type.inputFields : type.fields` where `kind` decides. */
  function FieldList(def: TypeDef, kind: Kind): Option<seq<Field>> {
    if kind == InputObject then def.inputFields else def.fields
  }

  /** `!isInputObject && field.args.length`: the condition both renderers
      test before printing a request body. */
  predicate HasRequestBody(root: TypeDef, f: Field) {
    root.kind != InputObject && |f.args| > 0
  }

  /** The scalars every table of the renderers has an entry for. */
  const BuiltinScalars: set<string> := {"String", "Int", "Int64", "Int32", "Float", "Boolean", "ID", "Time"}

  /** JavaScript truthiness of an optional description. */
  predicate HasDescription(d: Option<string>) { Truthy(d) }

  // ---------------------------------------------------------------------------
  // The type map (`schema.types.reduce(... Object.assign ...)`)
  // ---------------------------------------------------------------------------

  /** No later entry of `types` has the name of entry `i`. */
  predicate LastOfItsName(types: seq<TypeDef>, i: nat)
    requires i < |types|
  {
    forall j :: i < j < |types| ==> types[j].name != types[i].name
  }

  /** `schema.types.reduce((typeMap, type) => Object.assign(typeMap, {[type.name]: type}), {})`. */
  function BuildTypeMap(types: seq<TypeDef>): TypeMap {
    if |types| == 0 then map[]
    else BuildTypeMap(types[..|types| - 1])[types[|types| - 1].name := types[|types| - 1]]
  }

  /** Every entry's name is a key. */
  lemma {:induction false} TypeMapHoldsNames(types: seq<TypeDef>)
    ensures forall i :: 0 <= i < |types| ==> types[i].name in BuildTypeMap(types)
  {
    if |types| > 0 {
      var pre := types[..|types| - 1];
      TypeMapHoldsNames(pre);
      assert forall i :: 0 <= i < |pre| ==> pre[i] == types[i];
    }
  }

  /** A later entry overwrites an earlier one: the key holds the last entry
      of its name. */
  lemma {:induction false} TypeMapLastWins(types: seq<TypeDef>)
    ensures forall i :: 0 <= i < |types| && LastOfItsName(types, i) ==>
      types[i].name in BuildTypeMap(types) && BuildTypeMap(types)[types[i].name] == types[i]
  {
    if |types| > 0 {
      var n := |types| - 1;
      var pre := types[..n];
      TypeMapLastWins(pre);
      forall i | 0 <= i < n && LastOfItsName(types, i)
        ensures types[i].name in BuildTypeMap(types) && BuildTypeMap(types)[types[i].name] == types[i]
      {
        assert pre[i] == types[i];
        assert LastOfItsName(pre, i);
      }
    }
  }

  /** Nothing but the entries' names is a key. */
  lemma {:induction false} TypeMapOnlyNames(types: seq<TypeDef>)
    ensures forall n :: n in BuildTypeMap(types) ==> exists i :: 0 <= i < |types| && types[i].name == n
  {
    if |types| > 0 {
      var pre := types[..|types| - 1];
      TypeMapOnlyNames(pre);
      forall n | n in BuildTypeMap(types)
        ensures exists i :: 0 <= i < |types| && types[i].name == n
      {
        if n != types[|types| - 1].name {
          assert n in BuildTypeMap(pre);
          var i :| 0 <= i < |pre| && pre[i].name == n;
          assert types[i] == pre[i];
        }
      }
    }
  }

  /** `getType`: the definition, or `None` for the string 'unkown type'. */
  function GetType(tm: TypeMap, name: string): (r: Option<TypeDef>)
    ensures r.Some? <==> name in tm
    ensures r.Some? ==> r.value == tm[name]
  {
    if name in tm then Some(tm[name]) else None
  }

  // ---------------------------------------------------------------------------
  // Visible types, roots and kind buckets
  // ---------------------------------------------------------------------------

  /** Introspection's own types (`__Schema`, `__Type`, ...). */
  predicate IsReserved(name: string) { StartsWith(name, "__") }

  /** `schema.types.filter(type => !type.name.startsWith('__'))`, in order. */
  function Visible(types: seq<TypeDef>): (r: seq<TypeDef>)
    ensures forall t :: t in r <==> t in types && !IsReserved(t.name)
  {
    if |types| == 0 then []
    else
      var n := |types| - 1;
      assert types == types[..n] + [types[n]];
      Visible(types[..n]) + (if IsReserved(types[n].name) then [] else [types[n]])
  }

  /** `root && types.find(type => type.name === root.name)`, as an index. */
  function FindRoot(types: seq<TypeDef>, root: Option<string>): (r: Option<nat>)
    ensures r.Some? ==> root.Some? && r.value < |types| && types[r.value].name == root.value
    ensures r.Some? ==> forall j :: 0 <= j < r.value ==> types[j].name != root.value
    ensures r.None? ==> root.None? || forall j :: 0 <= j < |types| ==> types[j].name != root.value
  {
    if root.None? then None else FindFrom(types, root.value, 0)
  }

  function FindFrom(types: seq<TypeDef>, name: string, from: nat): (r: Option<nat>)
    requires from <= |types|
    requires forall j :: 0 <= j < from ==> types[j].name != name
    ensures r.Some? ==> from <= r.value < |types| && types[r.value].name == name
    ensures r.Some? ==> forall j :: 0 <= j < r.value ==> types[j].name != name
    ensures r.None? ==> forall j :: 0 <= j < |types| ==> types[j].name != name
    decreases |types| - from
  {
    if from == |types| then None
    else if types[from].name == name then Some(from)
    else FindFrom(types, name, from + 1)
  }

  /** The positions the query and mutation roots occupy. */
  function Roots(query: Option<nat>, mutation: Option<nat>): set<nat> {
    (if query.Some? then {query.value} else {}) + (if mutation.Some? then {mutation.value} else {})
  }

  /** `types.filter(type => type.kind === kind && <position not in skip>)`: the
      roots are excluded by identity, which is their position in the list. */
  function Bucket(types: seq<TypeDef>, kind: Kind, skip: set<nat>): (r: seq<TypeDef>)
    ensures forall t :: t in r <==>
      exists i :: 0 <= i < |types| && i !in skip && types[i] == t && t.kind == kind
  {
    if |types| == 0 then []
    else
      var n := |types| - 1;
      var r := Bucket(types[..n], kind, skip) + (if types[n].kind == kind && n !in skip then [types[n]] else []);
      assert forall i :: 0 <= i < n ==> types[..n][i] == types[i];
      r
  }

  /** The entries of the list have pairwise different names. */
  predicate UniqueNames(types: seq<TypeDef>) {
    forall i, j :: 0 <= i < j < |types| ==> types[i].name != types[j].name
  }

  /** Buckets hold no reserved names, and with unique names a root type is not
      in the bucket it was excluded from. */
  lemma BucketExcludes(types: seq<TypeDef>, kind: Kind, skip: set<nat>, i: nat)
    requires UniqueNames(Visible(types))
    requires i in skip && i < |Visible(types)|
    ensures forall t :: t in Bucket(Visible(types), kind, skip) ==> !IsReserved(t.name)
    ensures Visible(types)[i] !in Bucket(Visible(types), kind, skip)
  {
  }
}
