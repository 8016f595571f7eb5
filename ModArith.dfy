/** Exact integer arithmetic behind the two Python built-ins the SRP client relies on:
    three-argument `pow(base, exp, mod)` and `int.bit_length()`.

    Python's `%` with a positive modulus floors, so its remainder lies in [0, mod) even for a
    negative dividend; Dafny's `%` is Euclidean and agrees with it whenever the modulus is
    positive, which is the only case used here. */
module ModArith {

  /** `b` raised to the power `e` over the unbounded integers: the reference definition
      against which modular exponentiation is proved. */
  function Pow(b: int, e: nat): int
    decreases e
  {
    if e == 0 then 1 else b * Pow(b, e - 1)
  }

  /** Division with remainder is unique: a quotient/remainder pair with the remainder in
      [0, m) is the one `/` and `%` compute. */
  lemma ModUnique(x: int, q: int, r: int, m: int)
    requires m > 0 && 0 <= r < m && x == q * m + r
    ensures x % m == r
  {
    var q' := x / m;
    assert (q' - q) * m == r - x % m;
    ZeroMultiple(q' - q, m);
  }

  /** The only multiple of `m` strictly between -m and m is zero. */
  lemma ZeroMultiple(c: int, m: int)
    requires m > 0 && -m < c * m < m
    ensures c == 0
  {
    if c >= 1 {
      MulAtLeastOnce(c, m);
    } else if c <= -1 {
      MulAtLeastOnce(-c, m);
    }
  }

  lemma MulAtLeastOnce(c: int, m: int)
    requires c >= 1 && m > 0
    ensures c * m >= m
  {
    assert c * m == (c - 1) * m + m;
  }

  /** Adding a multiple of the modulus does not change the remainder. */
  lemma AddMultipleMod(z: int, c: int, m: int)
    requires m > 0
    ensures (z + c * m) % m == z % m
  {
    var q, r := z / m, z % m;
    assert z + c * m == (q + c) * m + r;
    ModUnique(z + c * m, q + c, r, m);
  }

  /** Reducing the right factor of a product first does not change the product's remainder. */
  lemma MulModRight(b: int, y: int, m: int)
    requires m > 0
    ensures (b * (y % m)) % m == (b * y) % m
  {
    var q := y / m;
    assert y == q * m + y % m;
    assert b * y == b * (y % m) + (b * q) * m;
    AddMultipleMod(b * (y % m), b * q, m);
  }

  /** Two congruent left factors give congruent products. */
  lemma MulModLeft(b1: int, b2: int, y: int, m: int)
    requires m > 0 && b1 % m == b2 % m
    ensures (b1 * y) % m == (b2 * y) % m
  {
    var q1, q2 := b1 / m, b2 / m;
    assert b1 == b2 + (q1 - q2) * m;
    assert b1 * y == b2 * y + ((q1 - q2) * y) * m;
    AddMultipleMod(b2 * y, (q1 - q2) * y, m);
  }

  /** Subtracting k * (G mod m) instead of k * G changes the difference only by a multiple of
      m, so the two are congruent. */
  lemma SubtractReducedProduct(B: int, k: int, G: int, m: int)
    requires m > 0
    ensures (B - k * (G % m)) % m == (B - k * G) % m
  {
    var q := G / m;
    assert G == q * m + G % m;
    assert B - k * (G % m) == (B - k * G) + (k * q) * m;
    AddMultipleMod(B - k * G, k * q, m);
  }

  /** Python's `pow(b, e, m)` for a positive modulus `m`: one factor of `b` at a time, reducing
      after every multiplication. Its result is the remainder of the exact power, so it lies in
      [0, m) whatever the sign of `b`. */
  function ModPow(b: int, e: nat, m: int): (r: int)
    requires m > 0
    ensures 0 <= r < m
    ensures r == Pow(b, e) % m
    decreases e
  {
    if e == 0 then 1 % m
    else
      var rest := ModPow(b, e - 1, m);
      MulModRight(b, Pow(b, e - 1), m);
      (b * rest) % m
  }

  /** Congruent bases give the same modular power. */
  lemma {:induction false} ModPowCongruent(b1: int, b2: int, e: nat, m: int)
    requires m > 0 && b1 % m == b2 % m
    ensures ModPow(b1, e, m) == ModPow(b2, e, m)
    decreases e
  {
    if e > 0 {
      ModPowCongruent(b1, b2, e - 1, m);
      MulModLeft(b1, b2, ModPow(b2, e - 1, m), m);
    }
  }

  /** Congruent bases give congruent exact powers. */
  lemma PowCongruent(b1: int, b2: int, e: nat, m: int)
    requires m > 0 && b1 % m == b2 % m
    ensures Pow(b1, e) % m == Pow(b2, e) % m
  {
    ModPowCongruent(b1, b2, e, m);
  }

  /** A possibly negative base is normalised into [0, m) without changing the result: the
      modular power of `b` is the modular power of the non-negative representative `b % m`. */
  lemma ModPowNormalisesBase(b: int, e: nat, m: int)
    requires m > 0
    ensures 0 <= b % m < m
    ensures ModPow(b, e, m) == ModPow(b % m, e, m)
  {
    assert (b % m) % m == b % m by { ModUnique(b % m, 0, b % m, m); }
    ModPowCongruent(b, b % m, e, m);
  }

  /** Python's `n.bit_length()` for a non-negative `n`: the number of binary digits of `n`,
      zero for zero. For positive `n` it is the `w` with 2^(w-1) <= n < 2^w. */
  function BitLength(n: nat): (w: nat)
    ensures w == 0 <==> n == 0
    ensures n > 0 ==> Pow(2, w - 1) <= n < Pow(2, w)
    decreases n
  {
    if n == 0 then 0 else 1 + BitLength(n / 2)
  }
}
