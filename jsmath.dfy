/** The two Math functions the simulation uses. */
module JsMath {
  /** Math.min on two numbers. */
  function Min(a: real, b: real): (m: real) { if a <= b then a else b }

  /** Math.max on two numbers. */
  function Max(a: real, b: real): (m: real) { if a <= b then b else a }
}
