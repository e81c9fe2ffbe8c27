/** Optional values: the model's stand-in for a Java reference that may be null. */
module Base {

  datatype Option<+T> = None | Some(value: T)

  /** The smallest and largest values of a Java `int`. */
  const IntMin: int := -0x8000_0000
  const IntMax: int := 0x7FFF_FFFF

  predicate InIntRange(x: int) {
    IntMin <= x <= IntMax
  }
}
