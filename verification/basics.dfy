/** What the models share: optional values, the ranges of unsigned integers, and products. */
module Basics {

  datatype Option<+T> = None | Some(value: T)

  const U16: nat := 0x1_0000
  const U32: nat := 0x1_0000_0000
  const U64: nat := 0x1_0000_0000_0000_0000

  // ---------------------------------------------------------------- products

  lemma Distribute(x: int, a: int, b: int)
    ensures x * (a + b) == x * a + x * b
  {
  }

  lemma Scale(x: int, y: int, factor: nat)
    requires x <= y
    ensures x * factor <= y * factor && factor * x <= factor * y
  {
  }

  lemma DivExact(x: nat, factor: nat)
    requires factor > 0
    ensures x * factor / factor == x
  {
    var q := x * factor / factor;
    assert q * factor <= x * factor < (q + 1) * factor;
    if q < x {
      Scale(q + 1, x, factor);
    } else if q > x {
      Scale(x + 1, q, factor);
    }
  }
}
