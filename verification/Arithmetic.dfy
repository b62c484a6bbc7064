/** Bounded arithmetic as the server uses it on sizes. */
module Arithmetic {
  function Min(a: nat, b: nat): nat {
    if a < b then a else b
  }

  /** `saturating_sub` on an unsigned integer. */
  function SaturatingSub(a: nat, b: nat): nat {
    if a < b then 0 else a - b
  }

  /** `saturating_add` on an integer whose largest value is `max`. */
  function SaturatingAdd(a: nat, b: nat, max: nat): nat {
    Min(a + b, max)
  }

  /** `saturating_mul` on an integer whose largest value is `max`. */
  function SaturatingMul(a: nat, b: nat, max: nat): nat {
    Min(a * b, max)
  }
}
