/** Index arithmetic of a power-of-two ring addressed with a bit mask. */
module Ring {
  /** Bitwise conjunction of two unsigned integers. */
  function And(x: nat, y: nat): nat {
    if x == 0 || y == 0 then 0
    else (if x % 2 == 1 && y % 2 == 1 then 1 else 0) + 2 * And(x / 2, y / 2)
  }

  predicate IsPowerOfTwo(n: nat) {
    n == 1 || (n > 1 && n % 2 == 0 && IsPowerOfTwo(n / 2))
  }

  lemma DoublePower(n: nat)
    requires IsPowerOfTwo(n)
    ensures IsPowerOfTwo(2 * n)
  {}

  lemma AndOdd(x: nat, y: nat)
    ensures And(x, 2 * y + 1) == x % 2 + 2 * And(x / 2, y)
  {}

  /** An index at most one lap ahead of the array: one subtraction brings it back. */
  function Wrap(x: nat, capMask: nat): nat {
    if x <= capMask then x else x - (capMask + 1)
  }

  /** Masking with one less than a power of two takes the lap off. */
  lemma {:induction false} MaskWraps(x: nat, cap: nat)
    requires IsPowerOfTwo(cap) && x < 2 * cap
    ensures And(x, cap - 1) == Wrap(x, cap - 1)
    decreases cap
  {
    if cap > 1 {
      var h := cap / 2;
      MaskWraps(x / 2, h);
      AndOdd(x, h - 1);
    }
  }

  function Slot(start: nat, i: nat, capMask: nat): nat {
    And(start + i, capMask)
  }

  lemma SlotWraps(start: nat, i: nat, capMask: nat)
    requires IsPowerOfTwo(capMask + 1) && start <= capMask && i <= capMask + 1
    ensures Slot(start, i, capMask) == Wrap(start + i, capMask) <= capMask
  {
    MaskWraps(start + i, capMask + 1);
  }
}
