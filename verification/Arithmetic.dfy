/** Word sizes, and quotients and remainders by a divisor that is not a constant. */
module Arithmetic {

  const U32: int := 0x1_0000_0000

  lemma MulAtLeast(n: nat, d: int)
    requires n > 0
    ensures d >= 1 ==> n * d >= n
    ensures d <= -1 ==> n * d + n <= 0
  {
  }

  lemma DivModUnique(x: nat, n: nat, q: nat, r: nat)
    requires n > 0 && r < n && x == n * q + r
    ensures x / n == q && x % n == r
  {
    var d := x / n - q;
    assert x == n * (x / n) + x % n;
    assert n * d == r - x % n;
    MulAtLeast(n, d);
  }

  /** Counting up by one, in quotient and remainder. */
  lemma DivStep(x: nat, n: nat)
    requires n > 0
    ensures x % n == n - 1 ==> (x + 1) / n == x / n + 1 && (x + 1) % n == 0
    ensures x % n < n - 1 ==> (x + 1) / n == x / n && (x + 1) % n == x % n + 1
  {
    var q, r := x / n, x % n;
    assert x == n * q + r;
    if r == n - 1 {
      assert x + 1 == n * (q + 1) + 0;
      DivModUnique(x + 1, n, q + 1, 0);
    } else {
      DivModUnique(x + 1, n, q, r + 1);
    }
  }

  lemma DivPositive(z: nat, n: nat)
    requires n > 0
    ensures z / n > 0 <==> z >= n
  {
  }

  lemma ModCompose(x: nat, d: nat, n: nat)
    requires n > 0
    ensures (x % n + d) % n == (x + d) % n
  {
    var q, z := x / n, x % n + d;
    assert x + d == n * q + z;
    assert z == n * (z / n) + z % n;
    assert n * (q + z / n) == n * q + n * (z / n);
    DivModUnique(x + d, n, q + z / n, z % n);
  }

  lemma ModOneRound(k: nat, n: nat)
    requires 0 < n <= k
    ensures k % n == (k - n) % n
  {
    var q, q' := k / n, (k - n) / n;
    assert k == n * q + k % n;
    assert k - n == n * q' + (k - n) % n;
    assert n * (q - 1 - q') == (k - n) % n - k % n;
    MulAtLeast(n, q - 1 - q');
  }
}
