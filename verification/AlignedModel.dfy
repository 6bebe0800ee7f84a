/** Where an aligned allocation puts its result, computed with the source's bit masks. */
module AlignedModel {
  import opened Alignment

  /** Bitwise `x & y`. */
  function And(x: nat, y: nat): nat
  {
    if x == 0 then 0 else (if x % 2 == 1 && y % 2 == 1 then 1 else 0) + 2 * And(x / 2, y / 2)
  }

  /** Bitwise `x & ~y`. */
  function AndNot(x: nat, y: nat): nat
  {
    if x == 0 then 0 else (if x % 2 == 1 && y % 2 == 0 then 1 else 0) + 2 * AndNot(x / 2, y / 2)
  }

  /** Bitwise `x | y`. */
  function Or(x: nat, y: nat): nat
  {
    if x == 0 then y else (if x % 2 == 1 || y % 2 == 1 then 1 else 0) + 2 * Or(x / 2, y / 2)
  }

  function Power(k: nat): (p: nat)
    ensures p > 0
  {
    if k == 0 then 1 else 2 * Power(k - 1)
  }

  ghost predicate IsPower(a: nat)
  {
    exists k: nat :: a == Power(k)
  }

  lemma ModOf(q: nat, d: nat, r: nat)
    requires r < q
    ensures (q * d + r) % q == r
  {
    var n := q * d + r;
    var e := n / q;
    assert n == q * e + n % q;
    assert q * (d - e) == n % q - r;
    FarFromZero(d - e, q);
  }

  lemma HalfMod(x: nat, q: nat)
    requires q > 0
    ensures x % (2 * q) == x % 2 + 2 * (x / 2 % q)
  {
    var y := x / 2;
    var d, r := y / q, y % q;
    assert y == q * d + r;
    assert x == 2 * y + x % 2;
    assert 2 * (q * d) == (2 * q) * d;
    ModOf(2 * q, d, 2 * r + x % 2);
  }

  lemma {:induction false} AndZero(x: nat)
    ensures And(x, 0) == 0 && AndNot(x, 0) == x
  {
    if x != 0 {
      AndZero(x / 2);
    }
  }

  /** Masking with one less than a power of two splits off the remainder. */
  lemma {:induction false} LowBits(x: nat, k: nat)
    ensures And(x, Power(k) - 1) == x % Power(k) && AndNot(x, Power(k) - 1) == RoundDown(x, Power(k))
    decreases k
  {
    var a := Power(k);
    if k == 0 {
      AndZero(x);
    } else {
      var q := Power(k - 1);
      LowBits(x / 2, k - 1);
      HalfMod(x, q);
      assert (a - 1) % 2 == 1 && (a - 1) / 2 == q - 1;
      if x == 0 {
        assert And(x, a - 1) == 0;
      } else {
        assert And(x, a - 1) == x % 2 + 2 * And(x / 2, q - 1);
        assert AndNot(x, a - 1) == 2 * AndNot(x / 2, q - 1);
      }
    }
  }

  /** `(n + (a - 1)) & ~(a - 1)`. */
  function Up(n: nat, a: nat): nat
    requires a > 0
  {
    AndNot(n + (a - 1), a - 1)
  }

  /** For a power of two the mask rounds up to the next multiple. */
  lemma UpIs(n: nat, k: nat)
    ensures Up(n, Power(k)) == RoundUp(n, Power(k))
  {
    var a := Power(k);
    LowBits(n + (a - 1), k);
    RoundDownIs(n + (a - 1), a);
    RoundUpIs(n, a);
    var x, y := RoundDown(n + (a - 1), a), RoundUp(n, a);
    if x < y {
      SubAligned(y, x, a);
      ModSmall(y - x, a);
    } else if y < x {
      SubAligned(x, y, a);
      ModSmall(x - y, a);
    }
  }

  lemma ModSmall(n: nat, a: nat)
    requires a > 0 && n % a == 0 && n < a
    ensures n == 0
  {
    ModOf(a, 0, n);
  }

  /** Where the user's block starts, in an underlying block at `ptr`. */
  function Placed(ptr: nat, align: nat): nat
    requires align > 0
  {
    if And(ptr, align - 1) == 0 then ptr + align else Up(ptr, align)
  }

  /** With a power of two: aligned, past a word for the hidden pointer, and at most `align` further on. */
  lemma PlacedIs(ptr: nat, k: nat, j: nat)
    requires j <= k && ptr % Power(j) == 0
    ensures Placed(ptr, Power(k)) % Power(k) == 0 && ptr + Power(j) <= Placed(ptr, Power(k)) <= ptr + Power(k)
  {
    var a, w := Power(k), Power(j);
    LowBits(ptr, k);
    UpIs(ptr, k);
    RoundUpIs(ptr, a);
    PowerDivides(k, j);
    if ptr % a == 0 {
      AddAligned(ptr, a, a);
    } else {
      var p := RoundUp(ptr, a);
      MultipleOf(p, a, w);
      SubAligned(p, ptr, w);
      if p - ptr < w {
        ModSmall(p - ptr, w);
      }
    }
  }

  lemma {:induction false} PowerDivides(k: nat, j: nat)
    requires j <= k
    ensures Power(k) % Power(j) == 0 && Power(j) <= Power(k)
    decreases k
  {
    if j < k {
      PowerDivides(k - 1, j);
      AddAligned(Power(k - 1), Power(k - 1), Power(j));
    } else {
      ModOf(Power(j), 1, 0);
    }
  }

  lemma MultipleOf(p: nat, a: nat, w: nat)
    requires a > 0 && w > 0 && p % a == 0 && a % w == 0
    ensures p % w == 0
  {
    var i := Multiple(p, a);
    var j := Multiple(a, w);
    assert p == (i * j) * w by { assert i * (j * w) == (i * j) * w; }
    MulMod(i * j, w);
  }

  // ----- any alignment -----

  lemma {:induction false} AndParts(x: nat, m: nat)
    ensures And(x, m) + AndNot(x, m) == x && And(x, m) <= m
  {
    if x != 0 {
      AndParts(x / 2, m / 2);
    }
  }

  /** When adding `m` leaves all bits of `m` set, the sum had no carry: the number shares no bit with `m`. */
  lemma {:induction false} NoCarry(x: nat, m: nat)
    requires And(x + m, m) == m
    ensures And(x, m) == 0
    decreases x + m
  {
    if x != 0 && m != 0 {
      AndParts((x + m) / 2, m / 2);
      assert m % 2 == 1 ==> (x + m) % 2 == 1;
      assert (x + m) / 2 == x / 2 + m / 2;
      NoCarry(x / 2, m / 2);
    } else if x != 0 {
      AndZero(x);
    }
  }

  /** Clearing a mask whose low bits are all set leaves a multiple. */
  lemma {:induction false} ClearsLow(x: nat, m: nat, j: nat)
    requires m % Power(j) == Power(j) - 1
    ensures AndNot(x, m) % Power(j) == 0
    decreases j
  {
    if j == 0 || x == 0 {
      ModOf(Power(j), 0, 0);
    } else {
      var q := Power(j - 1);
      HalfMod(m, q);
      assert m % 2 == 1 && m / 2 % q == q - 1;
      ClearsLow(x / 2, m / 2, j - 1);
      HalfMod(AndNot(x, m), q);
      assert AndNot(x, m) == 2 * AndNot(x / 2, m / 2);
    }
  }

  /** With any alignment that is a positive multiple of a word: past a word for the hidden pointer, at most the
      alignment further on, and word-aligned. */
  lemma PlacedInside(ptr: nat, a: nat, j: nat)
    requires a > 0 && a % Power(j) == 0 && ptr % Power(j) == 0
    ensures Placed(ptr, a) % Power(j) == 0 && ptr + Power(j) <= Placed(ptr, a) <= ptr + a
  {
    var w, x := Power(j), ptr + (a - 1);
    if And(ptr, a - 1) == 0 {
      AddAligned(ptr, a, w);
      if a < w { ModSmall(a, w); }
    } else {
      AndParts(x, a - 1);
      if AndNot(x, a - 1) == ptr { NoCarry(ptr, a - 1); }
      OneLess(a, w);
      ClearsLow(x, a - 1, j);
      SubAligned(AndNot(x, a - 1), ptr, w);
      if AndNot(x, a - 1) - ptr < w { ModSmall(AndNot(x, a - 1) - ptr, w); }
    }
  }

  lemma OneLess(a: nat, w: nat)
    requires a > 0 && w > 0 && a % w == 0
    ensures (a - 1) % w == w - 1
  {
    var k := Multiple(a, w);
    FarFromZero(k, w);
    assert a - 1 == w * (k - 1) + (w - 1);
    ModOf(w, k - 1, w - 1);
  }

  lemma {:induction false} PowerOrder(k: nat, j: nat)
    requires Power(j) <= Power(k)
    ensures j <= k
  {
    if k < j {
      PowerDivides(j - 1, k);
    }
  }

  // ----- other alignments -----

  /** The highest bit of `a`. */
  lemma {:induction false} TopBit(a: nat) returns (k: nat)
    requires a > 0
    ensures Power(k) <= a < 2 * Power(k)
    decreases a
  {
    if a == 1 {
      k := 0;
    } else {
      k := TopBit(a / 2);
      k := k + 1;
    }
  }

  lemma {:induction false} TopBitTested(k: nat, r: nat)
    requires r < Power(k)
    ensures And(Power(k), Power(k) + r) == Power(k)
    decreases k
  {
    if k == 0 {
      assert And(1 / 2, 1 / 2) == 0;
    } else {
      TopBitTested(k - 1, r / 2);
      assert (Power(k) + r) / 2 == Power(k - 1) + r / 2;
    }
  }

  lemma {:induction false} TopBitCarried(k: nat, r: nat)
    requires r < Power(k)
    ensures AndNot(2 * Power(k) + r, Power(k) + r) == 2 * Power(k)
    decreases k
  {
    if k == 0 {
      assert AndNot(1, 0) == 1 + 2 * AndNot(0, 0);
      assert AndNot(2, 1) == 2 * AndNot(1, 0);
    } else {
      TopBitCarried(k - 1, r / 2);
      assert (2 * Power(k) + r) / 2 == 2 * Power(k - 1) + r / 2 && (Power(k) + r) / 2 == Power(k - 1) + r / 2;
    }
  }

  /** Between two powers of two, the lower power as an address is placed on the upper one, which is no multiple. */
  lemma Misplaced(a: nat, k: nat)
    requires Power(k) < a < 2 * Power(k)
    ensures Placed(Power(k), a) == 2 * Power(k) && Placed(Power(k), a) % a != 0
  {
    var h, r := Power(k), a - 1 - Power(k);
    TopBitTested(k, r);
    TopBitCarried(k, r);
    ModOf(a, 1, 2 * h - a);
  }

  /** The result is a multiple of the (word-rounded) alignment for every underlying block exactly when that is a power of two. */
  lemma PlacedAlignedIff(a: nat, j: nat)
    requires a > 0 && a % Power(j) == 0
    ensures (forall ptr: nat :: ptr % Power(j) == 0 ==> Placed(ptr, a) % a == 0) <==> IsPower(a)
  {
    var k := TopBit(a);
    if a < Power(j) {
      ModSmall(a, Power(j));
    }
    if IsPower(a) {
      var i: nat :| a == Power(i);
      PowerOrder(i, j);
      forall ptr: nat | ptr % Power(j) == 0 ensures Placed(ptr, a) % a == 0 {
        PlacedIs(ptr, i, j);
      }
    } else {
      assert a != Power(k);
      Misplaced(a, k);
      if k < j {
        PowerDivides(j, k + 1);
      }
      PowerDivides(k, j);
    }
  }

  /** An alignment that is a power of two becomes one of at least a word. */
  lemma RoundedAlign(i: nat, j: nat) returns (k: nat)
    ensures Up(Power(i), Power(j)) == Power(k) && j <= k && Power(k) % Power(i) == 0
  {
    var a, w := Power(i), Power(j);
    UpIs(a, j);
    RoundUpIs(a, w);
    if j <= i {
      PowerDivides(i, j);
      PowerDivides(i, i);
      k := i;
    } else {
      PowerDivides(j, i);
      PowerDivides(j - 1, i);
      k := j;
      ModOf(w, 0, a);
    }
  }

  // ----- the test for a power of two -----

  lemma {:induction false} OrParts(x: nat, y: nat)
    ensures Or(x, y) + And(x, y) == x + y
  {
    if x != 0 {
      OrParts(x / 2, y / 2);
    }
  }

  lemma {:induction false} AndSelf(x: nat)
    ensures And(x, x) == x
  {
    if x != 0 {
      AndSelf(x / 2);
    }
  }

  /** A number that shares no bit with one less has a single bit. */
  lemma {:induction false} OneBit(n: nat)
    requires n > 0 && And(n, n - 1) == 0
    ensures IsPower(n)
  {
    var m := n / 2;
    if n == 1 {
      assert n == Power(0);
    } else if n % 2 == 1 {
      AndSelf(m);
    } else {
      assert And(n, n - 1) == 2 * And(m, m - 1);
      OneBit(m);
      var k: nat :| m == Power(k);
      assert n == Power(k + 1);
    }
  }

  /** `(n | (n - 1)) + 1 == n << 1` holds exactly for the powers of two. */
  lemma PowerTest(n: nat)
    requires n > 0
    ensures Or(n, n - 1) + 1 == 2 * n <==> IsPower(n)
  {
    OrParts(n, n - 1);
    if IsPower(n) {
      var k: nat :| n == Power(k);
      LowBits(n, k);
      ModOf(n, 1, 0);
    } else if And(n, n - 1) == 0 {
      OneBit(n);
    }
  }

  // ----- the alignment the caller asked for -----

  /** Every divisor of a power of two is one. */
  lemma {:induction false} DivisorIsPower(d: nat, k: nat)
    requires d > 0 && Power(k) % d == 0
    ensures IsPower(d)
    decreases k
  {
    var m := Multiple(Power(k), d);
    if k == 0 {
      if d > 1 { ModOf(d, 0, 1); }
      assert d == Power(0);
    } else if d % 2 == 0 {
      var e := d / 2;
      Halved(Power(k - 1), m, e);
      MulMod(m, e);
      DivisorIsPower(e, k - 1);
      var i: nat :| e == Power(i);
      assert d == Power(i + 1);
    } else {
      var h := m / 2;
      OddFactor(d, m, Power(k - 1));
      MulMod(h, d);
      DivisorIsPower(d, k - 1);
    }
  }

  lemma Halved(q: nat, m: nat, e: nat)
    requires 2 * q == m * (2 * e)
    ensures q == m * e
  {
    assert m * (2 * e) == 2 * (m * e);
  }

  lemma OddTimes(m: nat, e: nat)
    ensures m * (2 * e + 1) == 2 * (m * e) + m
  {
  }

  lemma EvenTimes(h: nat, d: nat)
    ensures (2 * h) * d == 2 * (h * d)
  {
  }

  /** An even product with an odd factor halves the other. */
  lemma OddFactor(d: nat, m: nat, q: nat)
    requires d % 2 == 1 && 2 * q == m * d
    ensures q == m / 2 * d
  {
    var h, e := m / 2, d / 2;
    OddTimes(m, e);
    assert d == 2 * e + 1 && m == 2 * (q - m * e);
    EvenTimes(h, d);
  }

  /** The result is a multiple of the alignment the caller asked for, for every underlying block, if and only if that
      alignment is a power of two. */
  lemma AskedAlignedIff(align: nat, j: nat)
    requires align > 0
    ensures Up(align, Power(j)) > 0
    ensures (forall ptr: nat :: ptr % Power(j) == 0 ==> Placed(ptr, Up(align, Power(j))) % align == 0) <==> IsPower(align)
  {
    var w, a := Power(j), Up(align, Power(j));
    UpIs(align, j);
    RoundUpIs(align, w);
    if IsPower(align) {
      var i: nat :| align == Power(i);
      var k := RoundedAlign(i, j);
      forall ptr: nat | ptr % w == 0 ensures Placed(ptr, a) % align == 0 {
        PlacedIs(ptr, k, j);
        MultipleOf(Placed(ptr, a), a, align);
      }
    } else {
      var ptr := MisplacedFor(align, a, j);
      assert ptr % w == 0;
    }
  }

  /** For any other alignment, an underlying block whose result is not aligned. */
  lemma MisplacedFor(align: nat, a: nat, j: nat) returns (ptr: nat)
    requires align > 0 && !IsPower(align) && a > 0 && a % Power(j) == 0
    ensures ptr % Power(j) == 0 && Placed(ptr, a) % align != 0
  {
    var k := TopBit(a);
    if a == Power(k) {
      ptr := 0;
      ModOf(Power(j), 0, 0);
      if a % align == 0 { DivisorIsPower(align, k); }
    } else {
      ptr := Power(k);
      Misplaced(a, k);
      if a < Power(j) { ModSmall(a, Power(j)); }
      if k < j { PowerDivides(j, k + 1); }
      PowerDivides(k, j);
      if Power(k + 1) % align == 0 { DivisorIsPower(align, k + 1); }
    }
  }

  /** With 8-byte words, alignment 12 is rounded to 16, and a block at 0 gives 16. */
  lemma TwelveMisplaced()
    ensures Up(12, 8) == 16 && Placed(0, 16) == 16 && Placed(0, 16) % 12 != 0 && !IsPower(12)
  {
    assert 8 == Power(3);
    UpIs(12, 3);
    if IsPower(12) {
      var i: nat :| 12 == Power(i);
      if i <= 3 { PowerDivides(3, i); } else { PowerDivides(i, 4); }
    }
  }
}
