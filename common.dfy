/**
 * Small value types shared by the other modules: an optional value and an
 * element's inline `display` style.
 */
module Common {
  datatype Option<T> = None | Some(value: T)

  /** An element's inline `display`: `''` (unset, the stylesheet decides), `none` or `block`. */
  datatype Display = Default | DisplayNone | Block
}
