/** The `unknownTypeURL` option and the values `getTypeURL` can return. */
module Links {
  import opened Optional
  import opened Introspection

  /** What `getTypeURL` hands back: nothing (`undefined`), a string, or the
      `unknownTypeURL` function itself, which a template literal shows as its
      source text. */
  datatype Url = NoUrl | Text(text: string) | FunctionValue(source: string)

  /** JavaScript truthiness: a function is always truthy, a string when it is
      not empty. */
  predicate UrlTruthy(u: Url) {
    u.FunctionValue? || (u.Text? && u.text != "")
  }

  /** The text a template literal shows for the value. */
  function UrlShown(u: Url): (r: string)
    ensures u.Text? ==> r == u.text
    ensures u.NoUrl? ==> r == UndefinedText
  {
    match u
    case NoUrl => UndefinedText
    case Text(s) => s
    case FunctionValue(src) => src
  }

  /** `options.unknownTypeURL`: absent, a string prefix, or a function from the
      named reference to an optional string (the function's own behaviour is
      not modelled; `source` is its text). */
  datatype Fallback =
    | NoFallback
    | Prefix(prefix: string)
    | Callback(resolve: TypeRef -> Option<string>, source: string)

  /** `unknownTypeURL` returned as it is. */
  function Raw(fb: Fallback): (r: Url)
    ensures fb.NoFallback? ==> r == NoUrl
    ensures fb.Prefix? ==> r == Text(fb.prefix)
    ensures fb.Callback? ==> UrlTruthy(r)
  {
    match fb
    case NoFallback => NoUrl
    case Prefix(p) => Text(p)
    case Callback(_, src) => FunctionValue(src)
  }

  /** The chain for names the type map does not hold:
      `typeof unknownTypeURL === 'function' ? unknownTypeURL(type)
       : unknownTypeURL ? unknownTypeURL + url : undefined`. */
  function Unresolved(fb: Fallback, t: TypeRef, url: string): (r: Url)
    ensures fb.Callback? ==> r == (if fb.resolve(t).Some? then Text(fb.resolve(t).value) else NoUrl)
    ensures fb.Prefix? && fb.prefix != "" ==> r == Text(fb.prefix + url)
    ensures (fb.Prefix? && fb.prefix == "") || fb.NoFallback? ==> r == NoUrl
    ensures !r.FunctionValue?
  {
    match fb
    case Callback(f, _) => (match f(t) case Some(s) => Text(s) case None => NoUrl)
    case Prefix(p) => if p != "" then Text(p + url) else NoUrl
    case NoFallback => NoUrl
  }
}
