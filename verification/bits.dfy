/** Bytes and the bitwise operators the interpreter applies to them.

    A C++ `unsigned char` is modelled as an integer in 0..255. The operators
    `|`, `&` and `^` are defined bit by bit, least significant bit first, so
    that each result is characterised by the bits it has.
 */
module Bits {

  type Byte = b: int | 0 <= b < 0x100

  function Pow2(n: nat): (r: nat)
    ensures r >= 1
  {
    if n == 0 then 1 else 2 * Pow2(n - 1)
  }

  /** Bit k of b, that is `(b >> k) & 1` */
  predicate Bit(b: nat, k: nat)
  {
    if k == 0 then b % 2 == 1 else Bit(b / 2, k - 1)
  }

  datatype BitOp = OrOp | AndOp | XorOp

  predicate Apply(op: BitOp, p: bool, q: bool)
  {
    match op
    case OrOp => p || q
    case AndOp => p && q
    case XorOp => p != q
  }

  /** The low n bits of `a op b`, combined one bit at a time. */
  function Combine(op: BitOp, a: nat, b: nat, n: nat): (r: nat)
    ensures r < Pow2(n)
    ensures forall k | 0 <= k < n :: Bit(r, k) == Apply(op, Bit(a, k), Bit(b, k))
  {
    if n == 0 then 0
    else
      var low := if Apply(op, a % 2 == 1, b % 2 == 1) then 1 else 0;
      var rest := Combine(op, a / 2, b / 2, n - 1);
      var r := low + 2 * rest;
      assert r / 2 == rest;
      assert forall k | 1 <= k < n :: Bit(r, k) == Bit(rest, k - 1);
      r
  }

  /** A number below 2^n is determined by its low n bits. */
  lemma {:induction false} BitsDetermine(a: nat, b: nat, n: nat)
    requires a < Pow2(n) && b < Pow2(n)
    requires forall k | 0 <= k < n :: Bit(a, k) == Bit(b, k)
    ensures a == b
  {
    if n > 0 {
      forall k | 0 <= k < n - 1
        ensures Bit(a / 2, k) == Bit(b / 2, k)
      {
        assert Bit(a, k + 1) == Bit(b, k + 1);
      }
      BitsDetermine(a / 2, b / 2, n - 1);
      assert Bit(a, 0) == Bit(b, 0);
    }
  }

  function BitOr(a: Byte, b: Byte): (r: Byte)
    ensures forall k | 0 <= k < 8 :: Bit(r, k) == (Bit(a, k) || Bit(b, k))
    ensures a <= r && b <= r
  {
    assert Pow2(8) == 0x100;
    OrAbove(a, b, 8);
    Combine(OrOp, a, b, 8)
  }

  function BitAnd(a: Byte, b: Byte): (r: Byte)
    ensures forall k | 0 <= k < 8 :: Bit(r, k) == (Bit(a, k) && Bit(b, k))
    ensures r <= a && r <= b
  {
    assert Pow2(8) == 0x100;
    AndBelow(a, b, 8);
    Combine(AndOp, a, b, 8)
  }

  function BitXor(a: Byte, b: Byte): (r: Byte)
    ensures forall k | 0 <= k < 8 :: Bit(r, k) == (Bit(a, k) != Bit(b, k))
  {
    assert Pow2(8) == 0x100;
    Combine(XorOp, a, b, 8)
  }

  /** XOR with the same operand twice gives the original byte back. */
  lemma XorInvolution(a: Byte, b: Byte)
    ensures BitXor(BitXor(a, b), b) == a
  {
    assert Pow2(8) == 0x100;
    BitsDetermine(BitXor(BitXor(a, b), b), a, 8);
  }

  /** Every bit of `a & b` is set in both operands, so it is no larger than either. */
  lemma {:induction false} AndBelow(a: nat, b: nat, n: nat)
    requires a < Pow2(n) && b < Pow2(n)
    ensures Combine(AndOp, a, b, n) <= a && Combine(AndOp, a, b, n) <= b
  {
    if n > 0 {
      AndBelow(a / 2, b / 2, n - 1);
    }
  }

  /** `a | b` keeps every bit of both operands, so it is no smaller than either. */
  lemma {:induction false} OrAbove(a: nat, b: nat, n: nat)
    requires a < Pow2(n) && b < Pow2(n)
    ensures Combine(OrOp, a, b, n) >= a && Combine(OrOp, a, b, n) >= b
  {
    if n > 0 {
      OrAbove(a / 2, b / 2, n - 1);
    }
  }
}
