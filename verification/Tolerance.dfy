/** Comparing prices with the tolerance of the pricing sync (controller/ratio_sync.go). */
module Tolerance {

  const EPSILON: real := 0.000000001

  /** `nearlyEqual` */
  predicate NearlyEqual(a: real, b: real) {
    if a > b then a - b < EPSILON else b - a < EPSILON
  }
}
