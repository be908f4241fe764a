/** The integer types of the platform whose width shows: a 64-bit size_t and a
    32-bit int. */
module Widths {

  const SIZE_T_SPAN: int := 0x1_0000_0000_0000_0000
  const INT_SPAN: int := 0x1_0000_0000
  const INT_MAX: int := INT_SPAN / 2 - 1

  /** A C++ int converted to a size_t. */
  function ToSizeT(x: int): int {
    x % SIZE_T_SPAN
  }

  /** A size converted to an int. */
  function ToInt(size: nat): int {
    var n := size % INT_SPAN;
    if n > INT_MAX then n - INT_SPAN else n
  }

  lemma {:induction false} Remainder(size: nat, k: nat, r: nat)
    requires size == k * INT_SPAN + r && r < INT_SPAN
    ensures size % INT_SPAN == r
  {
    if k > 0 {
      Remainder(size - INT_SPAN, k - 1, r);
    }
  }

  /** Numbers that fit stay what they are; a size is taken modulo 2^32 and then for the
      int between -2^31 and 2^31 - 1 that it agrees with. */
  lemma SizesAndInts(x: int, size: nat, k: nat)
    requires -0x8000_0000 <= x < 0x8000_0000 && size == k * 0x1_0000_0000 + x
    ensures ToInt(size) == x && (x >= 0 ==> ToSizeT(x) == x) && (x < 0 ==> ToSizeT(x) == 0x1_0000_0000_0000_0000 + x)
  {
    if x >= 0 {
      Remainder(size, k, x);
    } else {
      assert size == (k - 1) * INT_SPAN + (INT_SPAN + x);
      Remainder(size, k - 1, INT_SPAN + x);
    }
  }

  lemma NegativeAsSize(x: int)
    requires -INT_MAX <= x < 0
    ensures ToSizeT(x) == SIZE_T_SPAN + x && ToInt(ToSizeT(x)) == x
  {
    assert (SIZE_T_SPAN + x) % INT_SPAN == INT_SPAN + x;
  }
}
