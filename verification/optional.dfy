/** Nullable columns and options: JavaScript's `null` and `undefined` both read as `None`. */
module Nullable {

  datatype Option<+T> = None | Some(value: T)

  /** The nullish-coalescing `x ?? fallback`: only an absent value falls back, so 0 or "" is kept. */
  function Coalesce<T>(x: Option<T>, fallback: T): T {
    if x.Some? then x.value else fallback
  }
}
