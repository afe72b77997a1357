/** Optional values, and the JavaScript notion of a "truthy" string field. */
module Wrappers {

  /** An optional value: absent (`undefined`/`null` in the source) or present. */
  datatype Option<+T> = None | Some(value: T)

  /** `!v` is false for an optional string exactly when it is present and non-empty:
      JavaScript treats `undefined`, `null` and `""` alike as falsy. */
  predicate Truthy(v: Option<string>)
  {
    v.Some? && v.value != ""
  }
}
