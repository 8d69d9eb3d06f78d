/**
  Masked access to 32-bit registers (hci.h): a field of a register is read by masking and shifting down, and
  written by shifting up, masking, and combining with the register's other bits.

  A register is its 32 bits, bit 0 first; masks are numbers, as the driver's tables have them.
 */
module RegMask {

  const WIDTH := 32

  type word = w: seq<bool> | |w| == WIDTH witness seq(WIDTH, _ => false)

  function And(a: word, b: word): word { seq(WIDTH, i requires 0 <= i < WIDTH => a[i] && b[i]) }
  function Or(a: word, b: word): word { seq(WIDTH, i requires 0 <= i < WIDTH => a[i] || b[i]) }
  function Not(a: word): word { seq(WIDTH, i requires 0 <= i < WIDTH => !a[i]) }
  function ShiftUp(a: word, n: nat): word { seq(WIDTH, i requires 0 <= i < WIDTH => i >= n && a[i - n]) }
  function ShiftDown(a: word, n: nat): word { seq(WIDTH, i requires 0 <= i < WIDTH => i + n < WIDTH && a[i + n]) }

  /** Bit i of a number. */
  function BitAt(n: nat, i: nat): bool { if i == 0 then n % 2 == 1 else BitAt(n / 2, i - 1) }

  function Bits(n: nat): word { seq(WIDTH, i requires 0 <= i < WIDTH => BitAt(n, i)) }

  /** __ffs: the lowest set bit. */
  function Ffs(n: nat): nat
    requires n > 0
  {
    if n % 2 == 1 then 0 else 1 + Ffs(n / 2)
  }

  /** rtw_read32_mask. */
  function Get(w: word, mask: nat): word
    requires mask > 0
  {
    ShiftDown(And(w, Bits(mask)), Ffs(mask))
  }

  /** rtw_write32_mask. */
  function Set(w: word, mask: nat, v: word): word
    requires mask > 0
  {
    Or(And(w, Not(Bits(mask))), And(ShiftUp(v, Ffs(mask)), Bits(mask)))
  }

  // ---------------------------------------------------------------- two-bit fields

  function Pow2(k: nat): nat { if k == 0 then 1 else 2 * Pow2(k - 1) }

  /** The mask is the bits `lo` and `lo + 1`, and `lo` is its lowest bit. */
  predicate TwoBits(mask: nat, lo: nat)
  {
    && mask > 0 && lo + 1 < WIDTH && Ffs(mask) == lo
    && forall i: nat | i < WIDTH :: BitAt(mask, i) <==> i == lo || i == lo + 1
  }

  lemma {:induction false} ThreeShifted(k: nat)
    ensures Pow2(k) > 0 && Ffs(3 * Pow2(k)) == k
    ensures forall i: nat :: BitAt(3 * Pow2(k), i) <==> i == k || i == k + 1
  {
    if k == 0 {
      forall i: nat ensures BitAt(3, i) <==> i == 0 || i == 1 {
        if i >= 2 {
          NoBits(i - 2);
        }
      }
    } else {
      ThreeShifted(k - 1);
      var m := 3 * Pow2(k - 1);
      assert 3 * Pow2(k) == 2 * m && 2 * m / 2 == m && 2 * m % 2 == 0;
      forall i: nat ensures BitAt(2 * m, i) <==> i == k || i == k + 1 {
        if i > 0 {
          assert BitAt(2 * m, i) == BitAt(m, i - 1);
        }
      }
    }
  }

  lemma {:induction false} NoBits(i: nat)
    ensures !BitAt(0, i)
  {
    if i > 0 {
      NoBits(i - 1);
    }
  }

  lemma ThreeIsTwoBits(k: nat)
    requires k + 1 < WIDTH
    ensures TwoBits(3 * Pow2(k), k)
  {
    ThreeShifted(k);
  }

  /** Where a field's mask has its two bits: what is read are these two bits of the register. */
  lemma GetBits(w: word, mask: nat, lo: nat)
    requires TwoBits(mask, lo)
    ensures Get(w, mask)[0] == w[lo] && Get(w, mask)[1] == w[lo + 1]
    ensures forall i | 2 <= i < WIDTH :: !Get(w, mask)[i]
  {
  }

  /** A write puts the value's two low bits there and keeps every other bit of the register. */
  lemma SetBits(w: word, mask: nat, lo: nat, v: word)
    requires TwoBits(mask, lo)
    ensures Set(w, mask, v)[lo] == v[0] && Set(w, mask, v)[lo + 1] == v[1]
    ensures forall i | 0 <= i < WIDTH && i != lo && i != lo + 1 :: Set(w, mask, v)[i] == w[i]
  {
    forall i: nat | i < WIDTH && i != lo && i != lo + 1 ensures Set(w, mask, v)[i] == w[i] {
      assert !BitAt(mask, i);
    }
  }
}
