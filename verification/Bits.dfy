/** Bitwise operators on unbounded integers, as Python defines them, and their arithmetic meaning. */
module Bits {
  function Pow2(n: nat): nat
    ensures Pow2(n) > 0
  {
    if n == 0 then 1 else 2 * Pow2(n - 1)
  }

  /** `a << n` */
  function Shl(a: int, n: nat): int {
    a * Pow2(n)
  }

  /** `a >> n`, rounding down. */
  function Shr(a: int, n: nat): int {
    a / Pow2(n)
  }

  /** `a & m` for a non-negative mask; a negative `a` counts as two's complement. */
  function And(a: int, m: nat): nat
    decreases m, a
  {
    if m == 0 then 0 else (if a % 2 == 1 && m % 2 == 1 then 1 else 0) + 2 * And(a / 2, m / 2)
  }

  /** `a | b` on non-negative integers. */
  function Or(a: nat, b: nat): nat {
    if a == 0 && b == 0 then 0 else (if a % 2 + b % 2 == 0 then 0 else 1) + 2 * Or(a / 2, b / 2)
  }

  /** `a ^ b` on non-negative integers. */
  function Xor(a: nat, b: nat): nat {
    if a == 0 && b == 0 then 0 else (a % 2 + b % 2) % 2 + 2 * Xor(a / 2, b / 2)
  }

  // --- Masks and disjoint fields -------------------------------------------------------------------

  lemma BitAndRest(bit: int, rest: int)
    requires 0 <= bit < 2
    ensures (bit + 2 * rest) % 2 == bit && (bit + 2 * rest) / 2 == rest
  {
  }

  /** Halving splits a remainder by a power of two into its lowest bit and the rest. */
  lemma HalveMod(a: int, p: nat)
    requires p > 0
    ensures a % (2 * p) == a % 2 + 2 * (a / 2 % p)
  {
    var q, r := a / 2 / p, a / 2 % p;
    assert a / 2 == q * p + r;
    assert a == 2 * p * q + (2 * r + a % 2);
    ModUnique(a, 2 * p, q, 2 * r + a % 2);
  }

  lemma ModUnique(a: int, m: nat, q: int, r: int)
    requires m > 0 && 0 <= r < m && a == m * q + r
    ensures a % m == r && a / m == q
  {
    var d := a / m - q;
    assert a == m * (a / m) + a % m;
    assert m * d == r - a % m by { Distribute(m, a / m, q); }
    Scale(m, d);
  }

  lemma Distribute(m: int, x: int, y: int)
    ensures m * (x - y) == m * x - m * y
  {
  }

  lemma Scale(m: int, d: int)
    requires m > 0
    ensures d >= 1 ==> m * d >= m
    ensures d <= -1 ==> m * d <= -m
  {
  }

  /** Masking with n ones is the remainder modulo 2^n, for negative numbers too. */
  lemma {:induction false} MaskIsMod(a: int, n: nat)
    ensures And(a, Pow2(n) - 1) == a % Pow2(n)
    decreases n
  {
    if n > 0 {
      MaskIsMod(a / 2, n - 1);
      MaskStep(a, Pow2(n - 1));
    }
  }

  lemma {:induction false} MaskStep(a: int, p: nat)
    requires p > 0 && And(a / 2, p - 1) == a / 2 % p
    ensures And(a, 2 * p - 1) == a % (2 * p)
  {
    HalveMod(a, p);
    AndOdd(a, p - 1);
    assert 2 * p - 1 == 2 * (p - 1) + 1;
  }

  /** A mask whose lowest bit is set keeps the lowest bit. */
  lemma {:induction false} AndOdd(a: int, m: nat)
    ensures And(a, 2 * m + 1) == a % 2 + 2 * And(a / 2, m)
  {
    BitAndRest(1, m);
  }

  /** A number that fits below the mask is untouched by it. */
  lemma {:induction false} MaskKeeps(a: nat, n: nat, mask: nat)
    requires a < Pow2(n) && mask == Pow2(n) - 1
    ensures And(a, mask) == a
  {
    MaskIsMod(a, n);
    SmallMod(a, Pow2(n));
  }

  lemma SmallMod(a: int, m: int)
    requires 0 <= a < m
    ensures a % m == a
  {
  }

  lemma {:induction false} OrZero(a: nat)
    ensures Or(a, 0) == a
    decreases a
  {
    if a > 0 { OrZero(a / 2); }
  }

  /** A field below a shifted number does not overlap it: `|` is addition. */
  lemma {:induction false} OrIsSum(high: nat, n: nat, low: nat)
    requires low < Pow2(n)
    ensures Or(Shl(high, n), low) == Shl(high, n) + low
    decreases n
  {
    if n == 0 {
      OrZero(high);
    } else {
      var p := Pow2(n - 1);
      OrIsSum(high, n - 1, low / 2);
      assert Shl(high, n) == 2 * Shl(high, n - 1) by { Reassociate(high, p); }
      BitAndRest(0, Shl(high, n - 1));
      OrStep(Shl(high, n), low);
      BitAndRest(low % 2, low / 2);
    }
  }

  lemma {:induction false} Pow2Add(m: nat, n: nat)
    ensures Pow2(m + n) == Pow2(m) * Pow2(n)
    decreases m
  {
    if m > 0 {
      Pow2Add(m - 1, n);
      Associate(2, Pow2(m - 1), Pow2(n));
    }
  }

  lemma Associate(a: int, b: int, c: int)
    ensures a * b * c == a * (b * c)
  {
  }

  lemma ScaleBelow(field: nat, w: nat, p: nat)
    requires field < w && p > 0
    ensures field * p < w * p
  {
  }

  lemma AddScaled(a: int, b: int, p: int)
    ensures a * p + b * p == (a + b) * p
  {
  }

  /** A w-bit field placed right below a shifted number extends that number by w bits. */
  lemma {:induction false} OrField(high: nat, w: nat, field: nat, n: nat)
    requires field < Pow2(w)
    ensures Or(Shl(high, w + n), Shl(field, n)) == Shl(high * Pow2(w) + field, n)
  {
    Pow2Add(w, n);
    ScaleBelow(field, Pow2(w), Pow2(n));
    OrIsSum(high, w + n, Shl(field, n));
    Associate(high, Pow2(w), Pow2(n));
    AddScaled(high * Pow2(w), field, Pow2(n));
  }

  lemma Reassociate(a: int, p: int)
    ensures a * (2 * p) == 2 * (a * p)
  {
  }

  lemma {:induction false} OrStep(a: nat, b: nat)
    ensures Or(a, b) == (if a % 2 + b % 2 == 0 then 0 else 1) + 2 * Or(a / 2, b / 2)
  {
  }

  // --- Exclusive or -----------------------------------------------------------------------------------

  lemma SameParts(a: nat, b: nat)
    requires a % 2 == b % 2 && a / 2 == b / 2
    ensures a == b
  {
  }

  lemma OddEven(x: int, a: int, b: int)
    requires 0 <= x < 2 && 0 <= a < 2 && 0 <= b < 2 && x == (a + b) % 2
    ensures (b + x) % 2 == a
  {
  }

  lemma {:induction false} XorParts(a: nat, b: nat)
    ensures Xor(a, b) % 2 == (a % 2 + b % 2) % 2 && Xor(a, b) / 2 == Xor(a / 2, b / 2)
  {
    BitAndRest((a % 2 + b % 2) % 2, Xor(a / 2, b / 2));
  }

  lemma {:induction false} CancelStep(x: nat, b: nat, a: nat)
    requires x % 2 == (a % 2 + b % 2) % 2 && Xor(b / 2, x / 2) == a / 2
    ensures Xor(b, x) == a
  {
    XorParts(b, x);
    OddEven(x % 2, a % 2, b % 2);
    SameParts(Xor(b, x), a);
  }

  /** Applying the same operand twice gives back the other one. */
  lemma {:induction false} XorCancels(a: nat, b: nat)
    ensures Xor(b, Xor(a, b)) == a && Xor(a, Xor(a, b)) == b
    decreases a + b
  {
    if a != 0 || b != 0 {
      XorCancels(a / 2, b / 2);
      XorParts(a, b);
      CancelStep(Xor(a, b), b, a);
      CancelStep(Xor(a, b), a, b);
    }
  }

  lemma {:induction false} XorSymmetric(a: nat, b: nat)
    ensures Xor(a, b) == Xor(b, a)
    decreases a + b
  {
    if a != 0 || b != 0 { XorSymmetric(a / 2, b / 2); }
  }

  lemma {:induction false} XorBounded(a: nat, b: nat, bits: nat)
    requires a < Pow2(bits) && b < Pow2(bits)
    ensures Xor(a, b) < Pow2(bits)
  {
    if bits > 0 { XorBounded(a / 2, b / 2, bits - 1); }
  }
}
