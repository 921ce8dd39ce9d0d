/** Small types shared by the other modules. */
module Basics {

  datatype Option<+T> = None | Some(value: T)

  newtype Byte = x: int | 0 <= x < 256

  const TWO_63: int := 0x8000_0000_0000_0000
  const TWO_64: int := 0x1_0000_0000_0000_0000

  /** The value a signed 64-bit register holds after arithmetic whose exact result is x. */
  function Wrap64(x: int): (r: int)
    ensures -TWO_63 <= r < TWO_63
    ensures exists q: int :: x == r + q * TWO_64
    ensures -TWO_63 <= x < TWO_63 ==> r == x
  {
    var m := x % TWO_64;
    var r := if m < TWO_63 then m else m - TWO_64;
    assert x == r + (if m < TWO_63 then x / TWO_64 else x / TWO_64 + 1) * TWO_64;
    r
  }
}
