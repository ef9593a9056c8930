/** Satoshi amounts. `amount` holds a `uint64_t`, so sums and differences wrap modulo 2^64;
    some values are read back from JSON as `uint32_t` and lose their high bits. */
module Amounts {

  const UINT32_MAX: nat := 0xffff_ffff
  const TWO_TO_32: nat := 0x1_0000_0000
  const TWO_TO_64: nat := 0x1_0000_0000_0000_0000

  function Wrap64(x: int): nat {
    if 0 <= x < TWO_TO_64 then x else x % TWO_TO_64
  }

  function Add64(x: nat, y: nat): nat {
    Wrap64(x + y)
  }

  function Sub64(x: nat, y: nat): nat {
    Wrap64(x - y)
  }

  function Mul64(x: nat, y: nat): nat {
    Wrap64(x * y)
  }

  function Low32(x: nat): nat {
    x % TWO_TO_32
  }

  function Min(x: nat, y: nat): nat {
    if x <= y then x else y
  }

  function Max(x: nat, y: nat): nat {
    if x < y then y else x
  }

  /** ceil(x / 1000), the rounding used for fees quoted per 1000 vbytes. */
  function CeilPerThousand(x: nat): (r: nat)
    ensures 1000 * r >= x
    ensures r == 0 || 1000 * (r - 1) < x
  {
    (x + 999) / 1000
  }
}
