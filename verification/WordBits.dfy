/** Words as sets of bits. */
module WordBits {
  import opened Bitmap

  function And(a: bv32, b: bv32): bv32 { a & b }

  /** A single bit is in a word or not. */
  lemma HitOrMiss(a: bv32, m: bv32)
    requires Rest(m) == 0
    ensures And(a, m) == 0 || And(a, m) == m
  {
  }

  lemma TestAnd(a: bv32, b: bv32)
    ensures Test(a, b) <==> And(a, b) != 0
  {
  }

  lemma AndSwap(a: bv32, b: bv32, m: bv32)
    ensures And(And(a, b), m) == And(And(a, m), b) && And(m, b) == And(b, m) && And(0, b) == 0
  {
  }

  lemma AndMask(a: bv32, b: bv32, m: bv32)
    requires Rest(m) == 0
    ensures Test(And(a, b), m) <==> Test(a, m) && Test(b, m)
  {
    HitOrMiss(a, m);
    AndSwap(a, b, m);
    TestAnd(And(a, b), m);
    TestAnd(a, m);
    TestAnd(b, m);
  }

  lemma OrSplits(a: bv32, b: bv32, m: bv32)
    ensures And(Or(a, b), m) == Or(And(a, m), And(b, m))
  {
  }

  lemma OrZero(x: bv32, y: bv32)
    ensures Or(x, y) == 0 <==> x == 0 && y == 0
  {
  }

  lemma OrMask(a: bv32, b: bv32, m: bv32)
    ensures Test(Or(a, b), m) <==> Test(a, m) || Test(b, m)
  {
    OrSplits(a, b, m);
    OrZero(And(a, m), And(b, m));
    TestAnd(Or(a, b), m);
    TestAnd(a, m);
    TestAnd(b, m);
  }

  lemma NotSwap(a: bv32, b: bv32, m: bv32)
    ensures And(AndNot(a, b), m) == AndNot(And(a, m), b) && AndNot(0, b) == 0
  {
  }

  lemma NotMissed(b: bv32, m: bv32)
    ensures And(b, m) == 0 ==> AndNot(m, b) == m
    ensures And(b, m) == m ==> AndNot(m, b) == 0
  {
  }

  lemma AndNotMask(a: bv32, b: bv32, m: bv32)
    requires Rest(m) == 0 && m != 0
    ensures Test(AndNot(a, b), m) <==> Test(a, m) && !Test(b, m)
  {
    HitOrMiss(a, m);
    HitOrMiss(b, m);
    NotSwap(a, b, m);
    NotMissed(b, m);
    TestAnd(AndNot(a, b), m);
    TestAnd(a, m);
    TestAnd(b, m);
  }

  /** The bits of the three operations. */
  lemma AndBit(a: bv32, b: bv32, i: nat)
    requires i < 32
    ensures Bit(And(a, b), i) <==> Bit(a, i) && Bit(b, i)
  {
    MaskSingle(i);
    AndMask(a, b, Mask(i));
  }

  lemma OrBit(a: bv32, b: bv32, i: nat)
    requires i < 32
    ensures Bit(Or(a, b), i) <==> Bit(a, i) || Bit(b, i)
  {
    OrMask(a, b, Mask(i));
  }

  lemma AndNotBit(a: bv32, b: bv32, i: nat)
    requires i < 32
    ensures Bit(AndNot(a, b), i) <==> Bit(a, i) && !Bit(b, i)
  {
    MaskSingle(i);
    AndNotMask(a, b, Mask(i));
  }

  lemma NoBit(i: nat)
    requires i < 32
    ensures !Bit(0, i)
  {
  }

  /** A word without bits is zero. */
  lemma SomeBit(w: bv32) returns (i: nat)
    requires w != 0
    ensures i < 32 && Bit(w, i)
  {
    FfsFinds(w);
    i := Ffs(w) - 1;
  }

  lemma AllIn(a: bv32, b: bv32)
    ensures And(a, b) == a <==> AndNot(a, b) == 0
  {
  }

  /** `a & b == a`: every bit of `a` is in `b`. */
  lemma CoversIs(a: bv32, b: bv32)
    ensures And(a, b) == a <==> forall i: nat :: i < 32 && Bit(a, i) ==> Bit(b, i)
  {
    AllIn(a, b);
    if AndNot(a, b) != 0 {
      var i := SomeBit(AndNot(a, b));
      AndNotBit(a, b, i);
    } else {
      forall i: nat | i < 32 && Bit(a, i) ensures Bit(b, i) {
        AndNotBit(a, b, i);
        NoBit(i);
      }
    }
  }

  /** `a & b` is not zero: some bit is in both. */
  lemma MeetsIs(a: bv32, b: bv32)
    ensures Test(a, b) <==> exists i: nat :: i < 32 && Bit(a, i) && Bit(b, i)
  {
    TestAnd(a, b);
    if And(a, b) != 0 {
      var i := SomeBit(And(a, b));
      AndBit(a, b, i);
    } else {
      forall i: nat | i < 32 ensures !(Bit(a, i) && Bit(b, i)) {
        AndBit(a, b, i);
        NoBit(i);
      }
    }
  }
}
