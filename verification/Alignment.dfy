/** RT_ALIGN and RT_ALIGN_DOWN on sizes that do not wrap. */
module Alignment {

  /** The least multiple of `a` that is at least `n`. */
  function RoundUp(n: nat, a: nat): nat
    requires a > 0
  {
    if n % a == 0 then n else n + (a - n % a)
  }

  function RoundDown(n: nat, a: nat): nat
    requires a > 0
  {
    n - n % a
  }

  /** A multiple of `a` other than zero is at least `a` away from zero. */
  lemma FarFromZero(k: int, a: nat)
    requires a > 0
    ensures k > 0 ==> k * a >= a
    ensures k < 0 ==> k * a + a <= 0
  {
  }

  /** `k` times `d` is at most `x` just when `k` is at most the quotient. */
  lemma Quotient(x: nat, d: nat, k: nat)
    requires d > 0
    ensures k * d <= x <==> k <= x / d
  {
    var n := x / d;
    assert n * d <= x < n * d + d;
    assert (k - n) * d == k * d - n * d;
    FarFromZero(k - n, d);
  }

  lemma MulMod(k: nat, a: nat)
    requires a > 0
    ensures (k * a) % a == 0
  {
    var n := k * a;
    var d := n / a;
    assert n == d * a + n % a;
    assert (k - d) * a == k * a - d * a == n % a;
    FarFromZero(k - d, a);
  }

  lemma Multiple(n: nat, a: nat) returns (k: nat)
    requires a > 0 && n % a == 0
    ensures n == k * a
  {
    k := n / a;
  }

  lemma AddAligned(x: nat, y: nat, a: nat)
    requires a > 0 && x % a == 0 && y % a == 0
    ensures (x + y) % a == 0
  {
    var i := Multiple(x, a);
    var j := Multiple(y, a);
    MulMod(i + j, a);
    assert (i + j) * a == i * a + j * a;
  }

  lemma SubAligned(x: nat, y: nat, a: nat)
    requires a > 0 && x % a == 0 && y % a == 0 && y <= x
    ensures (x - y) % a == 0
  {
    var i := Multiple(x, a);
    var j := Multiple(y, a);
    assert (i - j) * a == i * a - j * a;
    FarFromZero(i - j, a);
    MulMod(i - j, a);
  }

  lemma RoundDownIs(n: nat, a: nat)
    requires a > 0
    ensures RoundDown(n, a) % a == 0 && RoundDown(n, a) <= n < RoundDown(n, a) + a
  {
    MulMod(n / a, a);
    assert RoundDown(n, a) == n / a * a;
  }

  lemma RoundUpIs(n: nat, a: nat)
    requires a > 0
    ensures RoundUp(n, a) % a == 0 && n <= RoundUp(n, a) < n + a
  {
    if n % a != 0 {
      RoundDownIs(n, a);
      AddAligned(RoundDown(n, a), a, a);
    }
  }

  /** No positive multiple of `a` is below `a`. */
  lemma Sparse(n: nat, a: nat)
    requires a > 0 && n % a == 0
    ensures n == 0 || n >= a
  {
    var k := Multiple(n, a);
    FarFromZero(k, a);
  }
}
