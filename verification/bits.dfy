/** Python's bitwise operators on its unbounded integers, which behave as
    two's complement numbers of infinite width. */
module Bits {

  function Abs(x: int): nat
  {
    if x < 0 then -x else x
  }

  function Pow2(k: nat): (p: nat)
    ensures p >= 1
  {
    if k == 0 then 1 else 2 * Pow2(k - 1)
  }

  /** Halving (with floor) moves every integer but 0 and -1 closer to zero. */
  lemma HalfShrinks(x: int)
    ensures Abs(x / 2) <= Abs(x)
    ensures x != 0 && x != -1 ==> Abs(x / 2) < Abs(x)
  {
  }

  /** `a | b`. The two base cases are the all-zeros and the all-ones bit
      strings; otherwise the lowest bit is combined and the rest recurse. */
  function Or(a: int, b: int): (r: int)
    ensures 0 <= a && 0 <= b ==> a <= r && b <= r && r <= a + b
    decreases Abs(a) + Abs(b)
  {
    if (a == 0 || a == -1) && (b == 0 || b == -1) then
      (if a == -1 || b == -1 then -1 else 0)
    else
      HalfShrinks(a);
      HalfShrinks(b);
      2 * Or(a / 2, b / 2) + (if a % 2 == 1 || b % 2 == 1 then 1 else 0)
  }

  /** The shift widths a colour packing uses. */
  lemma ShiftWidths()
    ensures Pow2(0) == 1 && Pow2(8) == 256 && Pow2(16) == 65536
  {
    assert Pow2(4) == 16;
  }

  /** `x << k`. */
  function ShiftLeft(x: int, k: nat): int
  {
    x * Pow2(k)
  }

  /** `(x >> k) & 0xFF`: the byte at bit offset `k`. */
  function ByteAt(x: int, k: nat): (r: int)
    ensures 0 <= r < 256
  {
    (x / Pow2(k)) % 256
  }

  /** Zero is the identity of `|` on the right. */
  lemma {:induction false} OrZero(a: int)
    ensures Or(a, 0) == a
    decreases Abs(a)
  {
    if a != 0 && a != -1 {
      HalfShrinks(a);
      OrZero(a / 2);
    }
  }

  /** Zero is the identity of `|` on the left. */
  lemma {:induction false} ZeroOr(b: int)
    ensures Or(0, b) == b
    decreases Abs(b)
  {
    if b != 0 && b != -1 {
      HalfShrinks(b);
      ZeroOr(b / 2);
    }
  }

  /** Or-ing a value into bits that are zero is addition. */
  lemma {:induction false} OrDisjoint(a: int, k: nat, b: int)
    requires 0 <= b < Pow2(k)
    ensures Or(ShiftLeft(a, k), b) == ShiftLeft(a, k) + b
    decreases k
  {
    if k == 0 {
      OrZero(a);
    } else {
      var x := ShiftLeft(a, k);
      assert x == 2 * ShiftLeft(a, k - 1);
      if x == 0 && b == 0 {
      } else {
        assert x / 2 == ShiftLeft(a, k - 1) && x % 2 == 0;
        OrDisjoint(a, k - 1, b / 2);
      }
    }
  }
}
