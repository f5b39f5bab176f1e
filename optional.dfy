/** Absent-or-present values. JavaScript's `undefined` and `null` are modelled as
    `None`; where the source interpolates such a value into a template string, the
    text it prints ("undefined" or "null") is produced explicitly with `OrText`. */
module Optional {

  datatype Option<+T> = None | Some(value: T)

  /** The text JavaScript prints for an optional string in a template literal:
      the string itself when present, otherwise `absent` ("undefined" or "null"). */
  function OrText(o: Option<string>, absent: string): (r: string)
    ensures o.Some? ==> r == o.value
    ensures o.None? ==> r == absent
  {
    match o
    case Some(s) => s
    case None => absent
  }

  const UndefinedText := "undefined"
  const NullText := "null"

  /** JavaScript truthiness of an optional string: present and not empty. */
  predicate Truthy(o: Option<string>) {
    o.Some? && o.value != ""
  }
}
