/** The optional-value datatype used across the model for JavaScript's
    `undefined`/`null` alternatives. */
module Wrappers {

  datatype Option<+T> = None | Some(value: T)

  /** JavaScript truthiness of an optional string or the `list && list.length > 0`
      test of an optional list: present and not empty. */
  predicate Present<T>(o: Option<seq<T>>) {
    o.Some? && |o.value| > 0
  }
}
