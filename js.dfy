/** JavaScript notions the two handlers lean on: optional environment values,
    the values a JSON body can hold, truthiness, string conversion and `??`. */
module Js {

  datatype Option<T> = None | Some(value: T)

  /** A value read out of a parsed JSON body by property access.
      `Undefined` is a missing property, `Str` a JSON string, and `Other` any
      other JSON value (null, a boolean, a number, an array or an object),
      known here only by its truthiness and by its `String(...)` rendering. */
  datatype Value = Undefined | Str(s: string) | Other(truthy: bool, text: string)

  /** JavaScript truthiness: `undefined` and the empty string are falsy. */
  predicate Truthy(v: Value) {
    match v
    case Undefined => false
    case Str(s) => s != ""
    case Other(t, _) => t
  }

  /** `String(v)`, the conversion a regular expression test and a template
      literal apply to their argument. */
  function ToText(v: Value): string {
    match v
    case Undefined => "undefined"
    case Str(s) => s
    case Other(_, text) => text
  }

  /** An environment variable read in a boolean position: set and non-empty. */
  predicate EnvTruthy(v: Option<string>) {
    v.Some? && v.value != ""
  }

  /** `v ?? fallback` on an environment variable: only an unset variable
      falls back; a variable set to the empty string is kept. */
  function Coalesce(v: Option<string>, fallback: string): string {
    match v
    case None => fallback
    case Some(s) => s
  }
}
