/**
 * Byte-wide bit operations of the ALU. Both interpreters compute them on
 * numbers and mask with 0xff; here they are computed on 8-bit vectors, where
 * bits shifted out of the byte are dropped just as the mask drops them.
 */
module Bits {
  import opened Isa

  /**
   * The byte as an 8-bit vector, built one bit at a time so that its value
   * as a number is known without the solver converting between the two.
   */
  function ToBits(a: byte): (x: bv8)
    ensures x as int == a
    decreases a
  {
    if a == 0 then 0 else
      var y := ToBits(a / 2);
      y * 2 + (if a % 2 == 1 then 1 else 0)
  }

  /** Two bit vectors with the same value are the same vector. */
  lemma BitsInjective(x: bv8, y: bv8)
    requires x as int == y as int
    ensures x == y
  {
  }

  /** Converting a bit vector to a byte and back gives the vector. */
  lemma BitsOfByte(x: bv8)
    ensures ToBits(x as int) == x
  {
    BitsInjective(ToBits(x as int), x);
  }

  function And(a: byte, b: byte): byte { (ToBits(a) & ToBits(b)) as int }

  function Or(a: byte, b: byte): byte { (ToBits(a) | ToBits(b)) as int }

  function Xor(a: byte, b: byte): byte { (ToBits(a) ^ ToBits(b)) as int }

  /** ~a & 0xff */
  function Not(a: byte): (r: byte)
    ensures r == 255 - a
  {
    (!ToBits(a)) as int
  }

  /** ((x >>> k) | (x << (8 - k))) & 0xff */
  function RotateRightBits(x: bv8, k: nat): bv8
    requires k < 8
  {
    (x >> k) | (x << (8 - k))
  }

  /** ((x << k) | (x >>> (8 - k))) & 0xff */
  function RotateLeftBits(x: bv8, k: nat): bv8
    requires k < 8
  {
    (x << k) | (x >> (8 - k))
  }

  /** ROR: rotate right by b mod 8. */
  function Ror(a: byte, b: byte): byte
  {
    RotateRightBits(ToBits(a), b % 8) as int
  }

  /** ROL: rotate left by b mod 8. */
  function Rol(a: byte, b: byte): byte
  {
    RotateLeftBits(ToBits(a), b % 8) as int
  }

  /** 1 << i, spelt out so that no shift by a symbolic amount is needed. */
  function BitMask(i: nat): bv8
    requires i < 8
  {
    match i
    case 0 => 0x01
    case 1 => 0x02
    case 2 => 0x04
    case 3 => 0x08
    case 4 => 0x10
    case 5 => 0x20
    case 6 => 0x40
    case 7 => 0x80
  }

  /** Bit i of a bit vector. */
  predicate BitOf(x: bv8, i: nat)
    requires i < 8
  {
    x & BitMask(i) != 0
  }

  /** Bit i of a byte. */
  predicate Bit(a: byte, i: nat)
    requires i < 8
  {
    BitOf(ToBits(a), i)
  }

  lemma RotationsInverse(x: bv8, k: nat)
    requires k < 8
    ensures RotateLeftBits(RotateRightBits(x, k), k) == x
    ensures RotateRightBits(RotateLeftBits(x, k), k) == x
  {
    if k == 0 {
    } else if k == 1 {
    } else if k == 2 {
    } else if k == 3 {
    } else if k == 4 {
    } else if k == 5 {
    } else if k == 6 {
    } else {
    }
  }

  /** ROL by the same amount undoes ROR, and the other way round. */
  lemma RolUndoesRor(a: byte, b: byte)
    ensures Rol(Ror(a, b), b) == a
    ensures Ror(Rol(a, b), b) == a
  {
    RotationsInverse(ToBits(a), b % 8);
    BitsOfByte(RotateRightBits(ToBits(a), b % 8));
    BitsOfByte(RotateLeftBits(ToBits(a), b % 8));
  }

  /** A rotation right by one place. */
  function RotateRightOnce(x: bv8): bv8 {
    (x >> 1) | (x << 7)
  }

  /** A rotation right by one place moves every bit one place down, bit 0 to bit 7. */
  lemma RotateRightOnceAt(x: bv8, i: nat)
    requires i < 8
    ensures BitOf(RotateRightOnce(x), i) == BitOf(x, (i + 1) % 8)
  {
    if i == 0 {
    } else if i == 1 {
    } else if i == 2 {
    } else if i == 3 {
    } else if i == 4 {
    } else if i == 5 {
    } else if i == 6 {
    } else {
    }
  }

  /** k rotations right by one place each. */
  function RotateRightTimes(x: bv8, k: nat): bv8 {
    if k == 0 then x else RotateRightOnce(RotateRightTimes(x, k - 1))
  }

  /** The rotation by k is k rotations by one place. */
  lemma RotateRightRepeats(x: bv8, k: nat)
    requires k < 8
    ensures RotateRightBits(x, k) == RotateRightTimes(x, k)
  {
    match k
    case 0 => case 1 => case 2 => case 3 => case 4 => case 5 => case 6 => case 7 =>
  }

  /** Each bit of k one-place rotations comes from k places further up, wrapping round. */
  lemma {:induction false} RotateRightTimesAt(x: bv8, k: nat, i: nat)
    requires k < 8 && i < 8
    ensures BitOf(RotateRightTimes(x, k), i) == BitOf(x, (i + k) % 8)
  {
    if k > 0 {
      RotateRightOnceAt(RotateRightTimes(x, k - 1), i);
      RotateRightTimesAt(x, k - 1, (i + 1) % 8);
      WrapAround(i, k);
    }
  }

  /** Each bit of a right rotation by k comes from k places further up, wrapping round. */
  lemma RotateRightBitsAt(x: bv8, k: nat, i: nat)
    requires k < 8 && i < 8
    ensures BitOf(RotateRightBits(x, k), i) == BitOf(x, (i + k) % 8)
  {
    RotateRightRepeats(x, k);
    RotateRightTimesAt(x, k, i);
  }

  /** One place and then k - 1 more, counted round eight bits, is k places. */
  lemma WrapAround(i: nat, k: nat)
    requires i < 8 && 1 <= k < 8
    ensures ((i + 1) % 8 + (k - 1)) % 8 == (i + k) % 8
  {
    if i == 7 {
      assert (i + 1) % 8 == 0;
      assert (i + k) % 8 == k - 1;
    } else {
      assert (i + 1) % 8 == i + 1;
    }
  }

  lemma RorAsBits(a: byte, b: byte)
    ensures ToBits(Ror(a, b)) == RotateRightBits(ToBits(a), b % 8)
  {
    BitsOfByte(RotateRightBits(ToBits(a), b % 8));
  }

  /** ROR is a rotation: bit i of the result is bit (i + b mod 8) mod 8 of the operand. */
  lemma RorMovesBits(a: byte, b: byte, i: nat)
    requires i < 8
    ensures Bit(Ror(a, b), i) == Bit(a, (i + b % 8) % 8)
  {
    RorAsBits(a, b);
    RotateRightBitsAt(ToBits(a), b % 8, i);
  }

  /** Rotating by a multiple of 8 leaves the byte as it is. */
  lemma RotateByWholeByte(a: byte, b: byte)
    ensures b % 8 == 0 ==> Ror(a, b) == a && Rol(a, b) == a
  {
    assert RotateRightBits(ToBits(a), 0) == ToBits(a);
    assert RotateLeftBits(ToBits(a), 0) == ToBits(a);
  }
}
