/** A value that may be missing: a `null` return or an absent query
    parameter in the proxy checker. */
module Options {

  datatype Option<T> = None | Some(value: T)

  /** The carried value, or `fallback` when there is none. */
  function ValueOr<T>(o: Option<T>, fallback: T): T {
    if o.Some? then o.value else fallback
  }
}
