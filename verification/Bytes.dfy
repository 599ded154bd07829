/** Bytes and the C integer operations the wire code uses on them.
    A byte is an integer in [0, 256): `b & 0x0F`, `b & 0x7F` and `b >> 7` of the source are
    `b % 16`, `b % 128` and `b / 128`, and exclusive or is defined bit by bit. */
module Bytes {

  type byte = b: int | 0 <= b < 256
  type uint16 = n: int | 0 <= n < 0x1_0000
  type uint32 = n: int | 0 <= n < 0x1_0000_0000

  datatype Option<+T> = None | Some(value: T)

  /** Conversion of an unsigned C integer to a 32-bit signed int (two's complement). */
  function ToInt32(n: nat): (r: int)
    ensures -0x8000_0000 <= r < 0x8000_0000
    ensures n < 0x8000_0000 ==> r == n
  {
    var m := n % 0x1_0000_0000;
    if m < 0x8000_0000 then m else m - 0x1_0000_0000
  }

  function Pow2(k: nat): (p: nat)
    ensures p >= 1
  {
    if k == 0 then 1 else 2 * Pow2(k - 1)
  }

  /** Bit k of n, counting from the lowest. */
  function Bit(n: nat, k: nat): bool {
    n / Pow2(k) % 2 == 1
  }

  /** Exclusive or of the low k bits of two integers. */
  function XorBits(a: nat, b: nat, k: nat): (r: nat)
    ensures r < Pow2(k)
  {
    if k == 0 then 0
    else (if a % 2 == b % 2 then 0 else 1) + 2 * XorBits(a / 2, b / 2, k - 1)
  }

  function Xor(a: byte, b: byte): byte {
    assert Pow2(8) == 256 by { Pow2Of8(); }
    XorBits(a, b, 8)
  }

  lemma Pow2Of8()
    ensures Pow2(8) == 256
  {
    assert Pow2(4) == 16;
    assert Pow2(8) == 16 * Pow2(4);
  }

  lemma {:induction false} XorBitsInvolution(a: nat, m: nat, k: nat)
    requires a < Pow2(k)
    ensures XorBits(XorBits(a, m, k), m, k) == a
  {
    if k > 0 {
      var low := if a % 2 == m % 2 then 0 else 1;
      var r := XorBits(a, m, k);
      assert r == low + 2 * XorBits(a / 2, m / 2, k - 1);
      assert r % 2 == low && r / 2 == XorBits(a / 2, m / 2, k - 1);
      XorBitsInvolution(a / 2, m / 2, k - 1);
    }
  }

  /** Masking is its own inverse. */
  lemma XorInvolution(a: byte, m: byte)
    ensures Xor(Xor(a, m), m) == a
  {
    Pow2Of8();
    XorBitsInvolution(a, m, 8);
  }
}
