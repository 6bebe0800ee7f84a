/** Priority bitmaps: the bit search in both its versions, and one- and two-level bitmaps. */
module Bitmap {

  /** The word with only bit `i` set. */
  function Mask(i: nat): bv32
    requires i < 32
  {
    if i == 0 then 1 else Mask(i - 1) << 1
  }

  predicate Test(w: bv32, m: bv32) { w & m != 0 }

  function Or(w: bv32, m: bv32): bv32 { w | m }

  function AndNot(w: bv32, m: bv32): bv32 { w & !m }

  predicate Bit(w: bv32, i: nat)
    requires i < 32
  {
    Test(w, Mask(i))
  }

  /** The bits two words share. */
  function Common(a: bv32, b: bv32): bv32 { a & b }

  /** The bits of `a` below the lowest bit of `b`, when `b` is a single bit. */
  function Under(a: bv32, b: bv32): bv32 { a & (b - 1) }

  /** A word without its lowest bit. */
  function Rest(m: bv32): bv32 { m & (m - 1) }

  lemma MasksApart(i: nat, j: nat)
    requires i < 32 && j < 32 && i != j
    ensures Common(Mask(i), Mask(j)) == 0
  {
    if i < j { MasksLower(i, j); } else { MasksLower(j, i); ApartBoth(Mask(j), Mask(i)); }
  }

  lemma ApartBoth(a: bv32, b: bv32)
    requires Common(a, b) == 0
    ensures Common(b, a) == 0
  {
  }

  /** No mask is shifted out. */
  lemma {:induction false} MaskNonZero(i: nat)
    requires i < 32
    ensures Mask(i) != 0
    decreases 31 - i
  {
    if i == 31 {
      LastMask();
    } else {
      MaskNonZero(i + 1);
      assert Mask(i + 1) == Mask(i) << 1;
    }
  }

  lemma LastMask()
    ensures Mask(31) == 0x8000_0000
  {
    assert Mask(7) == 0x80;
    var a1, b1, c1, d1 := FourMore(7, 0x80);
    var a2, b2, c2, d2 := FourMore(11, 0x800);
    var a3, b3, c3, d3 := FourMore(15, 0x8000);
    var a4, b4, c4, d4 := FourMore(19, 0x8_0000);
    var a5, b5, c5, d5 := FourMore(23, 0x80_0000);
    var a6, b6, c6, d6 := FourMore(27, 0x800_0000);
  }

  lemma FourMore(i: nat, m: bv32) returns (m1: bv32, m2: bv32, m3: bv32, m4: bv32)
    requires i < 28 && Mask(i) == m
    ensures m1 == m << 1 && m2 == m1 << 1 && m3 == m2 << 1 && m4 == m3 << 1
    ensures Mask(i + 1) == m1 && Mask(i + 2) == m2 && Mask(i + 3) == m3 && Mask(i + 4) == m4
  {
    m1 := OneMore(i, m);
    m2 := OneMore(i + 1, m1);
    m3 := OneMore(i + 2, m2);
    m4 := OneMore(i + 3, m3);
  }

  lemma OneMore(i: nat, m: bv32) returns (n: bv32)
    requires i < 31 && Mask(i) == m
    ensures Mask(i + 1) == n == m << 1
  {
    n := m << 1;
  }

  lemma {:induction false} MaskSingle(i: nat)
    requires i < 32
    ensures Mask(i) != 0 && Rest(Mask(i)) == 0
  {
    MaskNonZero(i);
    if i > 0 {
      MaskSingle(i - 1);
      DoubleSingle(Mask(i - 1));
    }
  }

  lemma DoubleSingle(x: bv32)
    requires Rest(x) == 0 && x << 1 != 0
    ensures Rest(x << 1) == 0
  {
  }

  lemma MasksLower(i: nat, j: nat)
    requires i < j < 32
    ensures Common(Mask(i), Mask(j)) == 0 && Under(Mask(i), Mask(j)) == Mask(i)
  {
    LowerMasks(i, j, Mask(i), Mask(j));
  }

  lemma {:induction false} LowerMasks(i: nat, j: nat, a: bv32, b: bv32)
    requires i < j < 32 && a == Mask(i) && b == Mask(j)
    ensures Common(a, b) == 0 && Under(a, b) == a
  {
    var b0 := Mask(j - 1);
    MaskNonZero(j);
    MaskSingle(j - 1);
    if i == 0 {
      OddLower(b0, b);
    } else {
      var a0 := Mask(i - 1);
      LowerMasks(i - 1, j - 1, a0, b0);
      DoubleLower(a0, b0, a, b);
    }
  }

  lemma OddLower(y: bv32, y': bv32)
    requires y != 0 && Rest(y) == 0 && y' == y << 1 != 0
    ensures Common(1, y') == 0 && Under(1, y') == 1
  {
  }

  lemma DoubleLower(x: bv32, y: bv32, x': bv32, y': bv32)
    requires Common(x, y) == 0 && Under(x, y) == x && y != 0 && Rest(y) == 0 && x' == x << 1 && y' == y << 1 != 0
    ensures Common(x', y') == 0 && Under(x', y') == x'
  {
  }

  /** Setting bit `i` sets it and no other. */
  lemma SetBit(w: bv32, i: nat, j: nat)
    requires i < 32 && j < 32
    ensures Bit(Or(w, Mask(i)), j) <==> i == j || Bit(w, j)
  {
    if i == j {
      MaskNonZero(i);
      OrSame(w, Mask(i));
    } else {
      MasksApart(i, j);
      OrOther(w, Mask(i), Mask(j));
    }
  }

  lemma OrSame(w: bv32, a: bv32)
    requires a != 0
    ensures Test(Or(w, a), a)
  {
  }

  lemma OrOther(w: bv32, a: bv32, b: bv32)
    requires Common(a, b) == 0
    ensures Test(Or(w, a), b) == Test(w, b)
  {
  }

  /** Clearing bit `i` clears it and no other. */
  lemma ClearBit(w: bv32, i: nat, j: nat)
    requires i < 32 && j < 32
    ensures Bit(AndNot(w, Mask(i)), j) <==> i != j && Bit(w, j)
  {
    if i == j {
      NotSame(w, Mask(i));
    } else {
      MasksApart(i, j);
      NotOther(w, Mask(i), Mask(j));
    }
  }

  lemma NotSame(w: bv32, a: bv32)
    ensures !Test(AndNot(w, a), a)
  {
  }

  lemma NotOther(w: bv32, a: bv32, b: bv32)
    requires Common(a, b) == 0
    ensures Test(AndNot(w, a), b) == Test(w, b)
  {
  }

  /** Bit `i` of `w` is set and no lower one is. */
  ghost predicate LowestBit(w: bv32, i: nat)
  {
    i < 32 && Bit(w, i) && forall j :: 0 <= j < i ==> !Bit(w, j)
  }

  // ----- the table of bytes -----

  /** The entries of the byte table for a low half byte. */
  function LowTable(x: bv32): nat
  {
    if x == 2 || x == 6 || x == 10 || x == 14 then 1 else if x == 4 || x == 12 then 2 else if x == 8 then 3 else 0
  }

  /** The byte table: an odd entry is 0, and so on up to the entry of 0x80. */
  function ByteTable(x: bv32): nat
  {
    if x & 0xF != 0 then LowTable(x & 0xF)
    else if x == 0 then 0 else 4 + LowTable(x >> 4)
  }

  /** `__rt_ffs` by bytes. */
  function Ffs(w: bv32): nat
  {
    if w == 0 then 0
    else if w & 0xFF != 0 then ByteTable(w & 0xFF) + 1
    else if w & 0xFF00 != 0 then ByteTable((w & 0xFF00) >> 8) + 9
    else if w & 0xFF0000 != 0 then ByteTable((w & 0xFF0000) >> 16) + 17
    else ByteTable((w & 0xFF000000) >> 24) + 25
  }

  // ----- the table of residues -----

  /** The table of the small version, indexed by residues modulo 37. */
  function ResidueTable(x: bv32): nat
  {
    if x == 1 then 1 else if x == 2 then 2 else if x == 3 then 27 else if x == 4 then 3 else if x == 5 then 24
    else if x == 6 then 28 else if x == 7 then 32 else if x == 8 then 4 else if x == 9 then 17 else if x == 10 then 25
    else if x == 11 then 31 else if x == 12 then 29 else if x == 13 then 12 else if x == 14 then 32 else if x == 15 then 14
    else if x == 16 then 5 else if x == 17 then 8 else if x == 18 then 18 else if x == 19 then 32 else if x == 20 then 26
    else if x == 21 then 23 else if x == 22 then 32 else if x == 23 then 16 else if x == 24 then 30 else if x == 25 then 11
    else if x == 26 then 13 else if x == 27 then 7 else if x == 28 then 32 else if x == 29 then 22 else if x == 30 then 15
    else if x == 31 then 10 else if x == 32 then 6 else if x == 33 then 21 else if x == 34 then 9 else if x == 35 then 20
    else if x == 36 then 19 else 0
  }

  /** `__rt_ffs` by the isolated lowest bit. */
  function FfsTiny(w: bv32): nat
  {
    ResidueTable(((w & (w - 1)) ^ w) % 37)
  }

  // ----- both find the lowest bit -----

  /** Mask `m` is set in `w`, and nothing below it. */
  predicate LowestMask(w: bv32, m: bv32) { w & (m | (m - 1)) == m }

  lemma LowestFrom(w: bv32, i: nat)
    requires i < 32 && LowestMask(w, Mask(i))
    ensures LowestBit(w, i)
  {
    MaskSingle(i);
    MaskSet(w, Mask(i));
    forall j | 0 <= j < i ensures !Bit(w, j) {
      MasksLower(j, i);
      MaskUnset(w, Mask(i), Mask(j));
    }
  }

  lemma MaskSet(w: bv32, m: bv32)
    requires LowestMask(w, m) && m != 0
    ensures Test(w, m)
  {
  }

  lemma MaskUnset(w: bv32, m: bv32, a: bv32)
    requires LowestMask(w, m) && Common(a, m) == 0 && Under(a, m) == a && m != 0 && Rest(m) == 0
    ensures !Test(w, a)
  {
  }

  /** The lowest set bit of a word, isolated. */
  function Isolated(w: bv32): bv32 { (w & (w - 1)) ^ w }

  lemma IsolatedLowest(w: bv32)
    requires w != 0
    ensures LowestMask(w, Isolated(w))
  {
  }

  /** The masks written out. */
  function MaskTable(i: nat): bv32
    requires i < 32
  {
    if i == 0 then 0x1 else if i == 1 then 0x2 else if i == 2 then 0x4 else if i == 3 then 0x8 else
    if i == 4 then 0x10 else if i == 5 then 0x20 else if i == 6 then 0x40 else if i == 7 then 0x80 else
    if i == 8 then 0x100 else if i == 9 then 0x200 else if i == 10 then 0x400 else if i == 11 then 0x800 else
    if i == 12 then 0x1000 else if i == 13 then 0x2000 else if i == 14 then 0x4000 else if i == 15 then 0x8000 else
    if i == 16 then 0x10000 else if i == 17 then 0x20000 else if i == 18 then 0x40000 else if i == 19 then 0x80000 else
    if i == 20 then 0x100000 else if i == 21 then 0x200000 else if i == 22 then 0x400000 else if i == 23 then 0x800000 else
    if i == 24 then 0x1000000 else if i == 25 then 0x2000000 else if i == 26 then 0x4000000 else if i == 27 then 0x8000000 else
    if i == 28 then 0x10000000 else if i == 29 then 0x20000000 else if i == 30 then 0x40000000 else 0x80000000
  }

  lemma MaskTableIs(i: nat)
    requires i < 32
    ensures MaskTable(i) == Mask(i)
  {
    assert Mask(7) == 0x80;
    var a7, b7, c7, d7 := FourMore(7, 0x80);
    var a8, b8, c8, d8 := FourMore(11, 0x800);
    var a9, b9, c9, d9 := FourMore(15, 0x8000);
    var a10, b10, c10, d10 := FourMore(19, 0x8_0000);
    var a11, b11, c11, d11 := FourMore(23, 0x80_0000);
    var a12, b12, c12, d12 := FourMore(27, 0x800_0000);
    if i < 8 { assert i == 0 || i == 1 || i == 2 || i == 3 || i == 4 || i == 5 || i == 6 || i == 7; }
    else if i < 12 { assert i == 8 || i == 9 || i == 10 || i == 11; }
    else if i < 16 { assert i == 12 || i == 13 || i == 14 || i == 15; }
    else if i < 20 { assert i == 16 || i == 17 || i == 18 || i == 19; }
    else if i < 24 { assert i == 20 || i == 21 || i == 22 || i == 23; }
    else if i < 28 { assert i == 24 || i == 25 || i == 26 || i == 27; }
    else { assert i == 28 || i == 29 || i == 30 || i == 31; }
  }

  lemma FfsIsolatesLow(w: bv32)
    requires w & 0xFFFF != 0
    ensures 1 <= Ffs(w) <= 32 && MaskTable(Ffs(w) - 1) == Isolated(w)
  {
  }

  lemma FfsIsolatesHigh(w: bv32)
    requires w != 0 && w & 0xFFFF == 0
    ensures 1 <= Ffs(w) <= 32 && MaskTable(Ffs(w) - 1) == Isolated(w)
  {
  }

  lemma FfsIsolates(w: bv32)
    requires w != 0
    ensures 1 <= Ffs(w) <= 32 && MaskTable(Ffs(w) - 1) == Isolated(w)
  {
    if w & 0xFFFF != 0 {
      FfsIsolatesLow(w);
    } else {
      FfsIsolatesHigh(w);
    }
  }

  lemma FfsTinyIsolates(w: bv32)
    requires w != 0
    ensures 1 <= FfsTiny(w) <= 32 && MaskTable(FfsTiny(w) - 1) == Isolated(w)
  {
    IsolatedSingle(w);
    ResidueFinds(Isolated(w));
  }

  lemma IsolatedSingle(w: bv32)
    requires w != 0
    ensures Isolated(w) != 0 && Rest(Isolated(w)) == 0
  {
  }

  /** The powers of two have different residues modulo 37, and the table inverts them. */
  lemma ResidueFinds(m: bv32)
    requires m != 0 && Rest(m) == 0
    ensures 1 <= ResidueTable(m % 37) <= 32 && MaskTable(ResidueTable(m % 37) - 1) == m
  {
    if m & 0xFF != 0 { ResidueByte0(m); }
    else if m & 0xFF00 != 0 { ResidueByte1(m); }
    else if m & 0xFF_0000 != 0 { ResidueByte2(m); }
    else { ResidueByte3(m); }
  }

  lemma ResidueByte0(m: bv32)
    requires m != 0 && Rest(m) == 0 && m & 0xFF != 0
    ensures 1 <= ResidueTable(m % 37) <= 32 && MaskTable(ResidueTable(m % 37) - 1) == m
  {
    assert m == 0x1 || m == 0x2 || m == 0x4 || m == 0x8 || m == 0x10 || m == 0x20 || m == 0x40 || m == 0x80;
  }

  lemma ResidueByte1(m: bv32)
    requires m != 0 && Rest(m) == 0 && m & 0xFF00 != 0
    ensures 1 <= ResidueTable(m % 37) <= 32 && MaskTable(ResidueTable(m % 37) - 1) == m
  {
    assert m == 0x100 || m == 0x200 || m == 0x400 || m == 0x800 || m == 0x1000 || m == 0x2000 || m == 0x4000 || m == 0x8000;
  }

  lemma ResidueByte2(m: bv32)
    requires m != 0 && Rest(m) == 0 && m & 0xFF0000 != 0
    ensures 1 <= ResidueTable(m % 37) <= 32 && MaskTable(ResidueTable(m % 37) - 1) == m
  {
    assert m == 0x10000 || m == 0x20000 || m == 0x40000 || m == 0x80000 || m == 0x100000 || m == 0x200000 || m == 0x400000 || m == 0x800000;
  }

  lemma ResidueByte3(m: bv32)
    requires m != 0 && Rest(m) == 0 && m & 0xFF000000 != 0
    ensures 1 <= ResidueTable(m % 37) <= 32 && MaskTable(ResidueTable(m % 37) - 1) == m
  {
    assert m == 0x1000000 || m == 0x2000000 || m == 0x4000000 || m == 0x8000000 || m == 0x10000000 || m == 0x20000000 || m == 0x40000000 || m == 0x80000000;
  }

  lemma TableMask(i: nat, m: bv32)
    requires i < 32 && MaskTable(i) == m
    ensures Mask(i) == m
  {
    MaskTableIs(i);
  }

  lemma LowestAt(w: bv32, i: nat, m: bv32)
    requires w != 0 && i < 32 && Mask(i) == m && m == Isolated(w)
    ensures LowestBit(w, i)
  {
    IsolatedLowest(w);
    LowestFrom(w, i);
  }

  lemma LowestUnique(w: bv32, i: nat, j: nat)
    requires LowestBit(w, i) && LowestBit(w, j)
    ensures i == j
  {
    assert Bit(w, i) && Bit(w, j);
  }

  /** Two positions of the same isolated bit are one, and it is the lowest set bit. */
  lemma OnePosition(w: bv32, i: nat, j: nat, m: bv32)
    requires w != 0 && i < 32 && j < 32 && Mask(i) == m && Mask(j) == m && m == Isolated(w)
    ensures i == j && LowestBit(w, i)
  {
    LowestAt(w, i, m);
    LowestAt(w, j, m);
    LowestUnique(w, i, j);
  }

  lemma FfsMask(w: bv32)
    requires w != 0
    ensures 1 <= Ffs(w) <= 32 && Mask(Ffs(w) - 1) == Isolated(w)
  {
    FfsIsolates(w);
    TableMask(Ffs(w) - 1, Isolated(w));
  }

  lemma FfsTinyMask(w: bv32)
    requires w != 0
    ensures 1 <= FfsTiny(w) <= 32 && Mask(FfsTiny(w) - 1) == Isolated(w)
  {
    FfsTinyIsolates(w);
    TableMask(FfsTiny(w) - 1, Isolated(w));
  }

  /** `__rt_ffs`, in both versions, gives the number of the lowest set bit, counted from one, and 0 for 0. */
  lemma FfsFinds(w: bv32)
    ensures FfsTiny(w) == Ffs(w) && (Ffs(w) == 0 <==> w == 0)
    ensures w != 0 ==> LowestBit(w, Ffs(w) - 1)
  {
    if w != 0 {
      FfsMask(w);
      FfsTinyMask(w);
      OnePosition(w, Ffs(w) - 1, FfsTiny(w) - 1, Isolated(w));
    }
  }
}
