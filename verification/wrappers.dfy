/** Optional values. `None` stands for a JavaScript property that is absent
    (`undefined`), `Some(v)` for one that holds `v`. */
module Wrappers {

  datatype Option<+T> = None | Some(value: T)

  /** The value an `Object.assign` leaves in one property: the incoming
      value when the source object carries the property, the current one otherwise. */
  function Overlay<T>(current: Option<T>, incoming: Option<T>): Option<T>
  {
    if incoming.Some? then incoming else current
  }
}

/** JavaScript truthiness of the few value shapes the components test. */
module Js {
  import opened Wrappers

  /** `x ? … : …` and `!x` on a boolean property that may be `undefined`:
      only `true` is truthy. */
  predicate Truthy(flag: Option<bool>)
  {
    flag == Some(true)
  }

  /** A string property is truthy when present and non-empty. */
  predicate TruthyString(s: Option<string>)
  {
    s.Some? && s.value != ""
  }
}
