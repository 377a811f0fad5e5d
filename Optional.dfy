/** Optional values, and the JavaScript truthiness test the page applies to
    optional strings (`if (authError)`, `from && …`): absent and empty are both falsy. */
module Optional {

  datatype Option<+T> = None | Some(value: T)

  /** True when an optional string is present and non-empty. */
  predicate Truthy(s: Option<string>) {
    s.Some? && s.value != ""
  }
}
