/** Go's fixed-width integers: `int` is 64 bits wide on the server, and the
    store narrows quantities to 32 bits before they reach the database. */
module Ints {

  const MAX_INT32: int := 0x7FFF_FFFF
  const MAX_INT64: int := 0x7FFF_FFFF_FFFF_FFFF

  /** The value of a Go `int` expression whose mathematical value is `x`. */
  function Wrap64(x: int): (r: int)
    ensures -MAX_INT64 - 1 <= r <= MAX_INT64
    ensures -MAX_INT64 - 1 <= x <= MAX_INT64 ==> r == x
  {
    (x + 0x8000_0000_0000_0000) % 0x1_0000_0000_0000_0000 - 0x8000_0000_0000_0000
  }

  /** The conversion `int32(x)`. */
  function Wrap32(x: int): (r: int)
    ensures -MAX_INT32 - 1 <= r <= MAX_INT32
    ensures -MAX_INT32 - 1 <= x <= MAX_INT32 ==> r == x
  {
    (x + 0x8000_0000) % 0x1_0000_0000 - 0x8000_0000
  }

  predicate Is64(x: int) {
    -MAX_INT64 - 1 <= x <= MAX_INT64
  }

  /** Wrapping is subtraction of a multiple of the modulus. */
  lemma WrapIsShift(x: int) returns (k: int)
    ensures Wrap64(x) == x + k * 0x1_0000_0000_0000_0000
  {
    k := -((x + 0x8000_0000_0000_0000) / 0x1_0000_0000_0000_0000);
  }

  /** Wrapping forgets multiples of the modulus. */
  lemma WrapShift(x: int, k: int)
    ensures Wrap64(x + k * 0x1_0000_0000_0000_0000) == Wrap64(x)
  {
    var y := x + 0x8000_0000_0000_0000;
    assert y + k * 0x1_0000_0000_0000_0000
        == (y / 0x1_0000_0000_0000_0000 + k) * 0x1_0000_0000_0000_0000 + y % 0x1_0000_0000_0000_0000;
  }

  /** Wrapping an operand of a sum early or late makes no difference. */
  lemma WrapAdd(x: int, y: int)
    ensures Wrap64(Wrap64(x) + y) == Wrap64(x + y)
    ensures Wrap64(x + Wrap64(y)) == Wrap64(x + y)
  {
    var k := WrapIsShift(x);
    WrapShift(x + y, k);
    assert Wrap64(x) + y == x + y + k * 0x1_0000_0000_0000_0000;
    var j := WrapIsShift(y);
    WrapShift(x + y, j);
    assert x + Wrap64(y) == x + y + j * 0x1_0000_0000_0000_0000;
  }

  /** Wrapping an operand of a product early or late makes no difference. */
  lemma WrapMul(x: int, y: int)
    ensures Wrap64(x * Wrap64(y)) == Wrap64(x * y)
  {
    var k := WrapIsShift(y);
    assert x * Wrap64(y) == x * y + (x * k) * 0x1_0000_0000_0000_0000;
    WrapShift(x * y, x * k);
  }

  /** `x + y` wraps to `x` exactly when `x` fits and `y` is a multiple of the
      modulus. */
  lemma SameWrapIff(x: int, y: int)
    ensures Wrap64(x + y) == x <==> Is64(x) && y % 0x1_0000_0000_0000_0000 == 0
  {
    if Is64(x) && y % 0x1_0000_0000_0000_0000 == 0 {
      WrapShift(x, y / 0x1_0000_0000_0000_0000);
    }
    var k := WrapIsShift(x + y);
    if Wrap64(x + y) == x {
      assert y == -k * 0x1_0000_0000_0000_0000;
    }
  }
}
