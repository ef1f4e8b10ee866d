/** Fixed-width integer ranges of the source (`u8`, `i8`, `u16`). */
module Ints {

  type U8 = x: int | 0 <= x < 256
  type I8 = x: int | -128 <= x < 128
  type U16 = x: int | 0 <= x < 65536

  /** The two's-complement reinterpretation of a `u8` as an `i8` (`as i8`). */
  function AsI8(x: U8): (r: I8)
    ensures r == x || r == x - 256
    ensures (x < 128) == (r == x)
  {
    if x < 128 then x else x - 256
  }

  /** Wrapping `u8` arithmetic: the mathematical result reduced modulo 256. */
  function WrapU8(x: int): (r: U8)
    ensures (r - x) % 256 == 0
    ensures 0 <= x < 256 ==> r == x
  {
    x % 256
  }

  /** Wrapping `i8` arithmetic: the mathematical result reduced into -128..127. */
  function WrapI8(x: int): (r: I8)
    ensures (r - x) % 256 == 0
    ensures -128 <= x < 128 ==> r == x
  {
    (x + 128) % 256 - 128
  }

  /** Facts about congruence modulo 256, the width of the 8-bit types. */
  lemma {:induction false} CongruentShift(a: int, b: int, c: int)
    requires (a - b) % 256 == 0
    ensures ((a + c) - (b + c)) % 256 == 0
  {
    assert (a + c) - (b + c) == a - b;
  }

  lemma {:induction false} CongruentTrans(a: int, b: int, c: int)
    requires (a - b) % 256 == 0 && (b - c) % 256 == 0
    ensures (a - c) % 256 == 0
  {
    var k := (a - b) / 256;
    var m := (b - c) / 256;
    assert a - b == 256 * k;
    assert b - c == 256 * m;
    assert a - c == 256 * (k + m);
  }

  lemma {:induction false} WrapI8Congruent(x: int, y: int)
    requires (x - y) % 256 == 0
    ensures WrapI8(x) == WrapI8(y)
  {
    var k := (x - y) / 256;
    assert x + 128 == (y + 128) + 256 * k;
  }

}
