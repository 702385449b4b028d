/** Bytes as numbers, with the bit operations the wire code uses written out bit by bit. */
module Bytes {

  type byte = x: int | 0 <= x < 256

  function Pow2(k: nat): nat
  {
    if k == 0 then 1 else 2 * Pow2(k - 1)
  }

  // ---------- Exclusive or ----------

  function XorNat(a: nat, b: nat): nat
    decreases a + b
  {
    if a == 0 && b == 0 then 0 else 2 * XorNat(a / 2, b / 2) + (if a % 2 == b % 2 then 0 else 1)
  }

  lemma {:induction false} XorNatBound(a: nat, b: nat, k: nat)
    requires a < Pow2(k) && b < Pow2(k)
    ensures XorNat(a, b) < Pow2(k)
    decreases k
  {
    if k > 0 {
      XorNatBound(a / 2, b / 2, k - 1);
    }
  }

  lemma XorNatHalf(a: nat, b: nat)
    ensures XorNat(a, b) / 2 == XorNat(a / 2, b / 2)
    ensures XorNat(a, b) % 2 == if a % 2 == b % 2 then 0 else 1
  {
  }

  lemma HalvesAgree(x: nat, y: nat)
    requires x / 2 == y / 2 && x % 2 == y % 2
    ensures x == y
  {
  }

  lemma {:induction false} XorNatAssoc(a: nat, b: nat, c: nat)
    ensures XorNat(XorNat(a, b), c) == XorNat(a, XorNat(b, c))
    decreases a + b + c
  {
    if a != 0 || b != 0 || c != 0 {
      var ab, bc := XorNat(a, b), XorNat(b, c);
      XorNatAssoc(a / 2, b / 2, c / 2);
      XorNatHalf(a, b);
      XorNatHalf(b, c);
      XorNatHalf(ab, c);
      XorNatHalf(a, bc);
      HalvesAgree(XorNat(ab, c), XorNat(a, bc));
    }
  }

  lemma XorNatComm(a: nat, b: nat)
    ensures XorNat(a, b) == XorNat(b, a)
  {
  }

  lemma XorNatZero(a: nat)
    ensures XorNat(a, 0) == a
  {
  }

  lemma XorNatSelf(a: nat)
    ensures XorNat(a, a) == 0
  {
  }

  function Xor(a: byte, b: byte): byte
  {
    assert Pow2(8) == 256;
    XorNatBound(a, b, 8);
    XorNat(a, b)
  }

  lemma XorAssoc(a: byte, b: byte, c: byte)
    ensures Xor(Xor(a, b), c) == Xor(a, Xor(b, c))
  {
    XorNatAssoc(a, b, c);
  }

  lemma XorComm(a: byte, b: byte)
    ensures Xor(a, b) == Xor(b, a)
  {
    XorNatComm(a, b);
  }

  lemma XorZero(a: byte)
    ensures Xor(a, 0) == a && Xor(0, a) == a
  {
    XorNatZero(a);
    XorNatComm(a, 0);
  }

  lemma XorCancel(a: byte, x: byte)
    ensures Xor(Xor(a, x), a) == x && Xor(Xor(x, a), a) == x
    ensures Xor(a, Xor(a, x)) == x && Xor(a, Xor(x, a)) == x
  {
    XorNatComm(a, XorNat(a, x));
    XorNatComm(a, x);
    XorNatAssoc(x, a, a);
    XorNatSelf(a);
    XorNatZero(x);
  }

  // ---------- Inclusive or ----------

  function OrNat(a: nat, b: nat): nat
    decreases a + b
  {
    if a == 0 && b == 0 then 0 else 2 * OrNat(a / 2, b / 2) + (if a % 2 == 1 || b % 2 == 1 then 1 else 0)
  }

  lemma {:induction false} OrNatBound(a: nat, b: nat, k: nat)
    requires a < Pow2(k) && b < Pow2(k)
    ensures OrNat(a, b) < Pow2(k)
    decreases k
  {
    if k > 0 {
      OrNatBound(a / 2, b / 2, k - 1);
    }
  }

  function Or(a: byte, b: byte): byte
  {
    assert Pow2(8) == 256;
    OrNatBound(a, b, 8);
    OrNat(a, b)
  }

  lemma OrNatZero(a: nat)
    ensures OrNat(0, a) == a && OrNat(a, 0) == a
  {
  }

  lemma OrNatComm(a: nat, b: nat)
    ensures OrNat(a, b) == OrNat(b, a)
  {
  }

  lemma OrNatDouble(x: nat, b: nat)
    ensures OrNat(2 * x, b) == 2 * OrNat(x, b / 2) + b % 2
  {
  }

  lemma OrNatFourfold(x: nat, b: nat)
    ensures OrNat(4 * x, b) == 4 * OrNat(x, b / 4) + b % 4
  {
    hide OrNat;
    OrNatDouble(2 * x, b);
    OrNatDouble(x, b / 2);
  }

  lemma OrNatSixteenfold(x: nat, b: nat)
    ensures OrNat(16 * x, b) == 16 * OrNat(x, b / 16) + b % 16
  {
    hide OrNat;
    OrNatFourfold(4 * x, b);
    OrNatFourfold(x, b / 4);
  }

  /** Or-ing onto a value whose low six bits are clear: the low bits are the operand's, the
      high bits are or-ed. */
  lemma OrShiftedBySix(x: nat, b: nat)
    ensures OrNat(64 * x, b) == 64 * OrNat(x, b / 64) + b % 64
  {
    hide OrNat;
    OrNatSixteenfold(4 * x, b);
    OrNatFourfold(x, b / 16);
  }
}
