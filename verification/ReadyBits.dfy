/** The ready-priority bitmap, in one level for up to 32 priorities and in two for up to 256. */
module ReadyBits {
  import opened Bitmap

  /** `rt_thread_ready_priority_group`, and `rt_thread_ready_table` when there are more than 32 priorities. */
  datatype Bits = One(group: bv32) | Two(group: bv32, table: seq<bv32>)

  function Levels(m: Bits): nat
  {
    if m.One? then 32 else 256
  }

  ghost predicate EntryOk(m: Bits, n: nat)
    requires m.Two? && |m.table| == 32 && n < 32
  {
    (Bit(m.group, n) <==> m.table[n] != 0) && forall j :: 8 <= j < 32 ==> !Bit(m.table[n], j)
  }

  /** A group bit says whether its table entry is not zero; an entry has eight bits. */
  ghost predicate Coherent(m: Bits)
  {
    m.Two? ==> |m.table| == 32 && forall n :: 0 <= n < 32 ==> EntryOk(m, n)
  }

  /** Priority `p` is marked ready. */
  predicate Has(m: Bits, p: nat)
    requires p < Levels(m) && (m.Two? ==> |m.table| == 32)
  {
    if m.One? then Bit(m.group, p) else Bit(m.table[p / 8], p % 8)
  }

  /** Marking priority `p`, as `rt_sched_insert_thread` does with the thread's masks. */
  function Marked(m: Bits, p: nat): Bits
    requires p < Levels(m) && (m.Two? ==> |m.table| == 32)
  {
    if m.One? then One(Or(m.group, Mask(p)))
    else Two(Or(m.group, Mask(p / 8)), m.table[p / 8 := Or(m.table[p / 8], Mask(p % 8))])
  }

  /** Unmarking priority `p`, as `rt_sched_remove_thread` does when its list is empty. */
  function Unmarked(m: Bits, p: nat): Bits
    requires p < Levels(m) && (m.Two? ==> |m.table| == 32)
  {
    if m.One? then One(AndNot(m.group, Mask(p)))
    else
      var entry := AndNot(m.table[p / 8], Mask(p % 8));
      Two(if entry == 0 then AndNot(m.group, Mask(p / 8)) else m.group, m.table[p / 8 := entry])
  }

  /** The highest ready priority, or -1. */
  function Highest(m: Bits): int
    requires m.Two? ==> |m.table| == 32
  {
    var number := Ffs(m.group) - 1;
    if m.One? || number < 0 || number >= 32 then number else number * 8 + Ffs(m.table[number]) - 1
  }

  lemma NotZero(w: bv32, i: nat)
    requires i < 32 && Bit(w, i)
    ensures w != 0
  {
  }

  lemma OrNotZero(w: bv32, m: bv32)
    requires m != 0
    ensures Or(w, m) != 0
  {
  }

  lemma MarkedEntry(m: Bits, p: nat, n: nat)
    requires m.Two? && Coherent(m) && p < 256 && n < 32
    ensures EntryOk(Marked(m, p), n)
  {
    assert EntryOk(m, n);
    SetBit(m.group, p / 8, n);
    if n == p / 8 {
      MaskSingle(p % 8);
      OrNotZero(m.table[n], Mask(p % 8));
      forall j | 8 <= j < 32 ensures !Bit(Or(m.table[n], Mask(p % 8)), j) { SetBit(m.table[n], p % 8, j); }
    }
  }

  /** Marking sets one priority, and keeps the levels together. */
  lemma MarkedIs(m: Bits, p: nat, q: nat)
    requires Coherent(m) && p < Levels(m) && q < Levels(m)
    ensures Coherent(Marked(m, p)) && (Has(Marked(m, p), q) <==> p == q || Has(m, q))
  {
    if m.One? {
      SetBit(m.group, p, q);
    } else {
      forall n | 0 <= n < 32 ensures EntryOk(Marked(m, p), n) { MarkedEntry(m, p, n); }
      if p / 8 == q / 8 { SetBit(m.table[p / 8], p % 8, q % 8); }
    }
  }

  lemma UnmarkedEntry(m: Bits, p: nat, n: nat)
    requires m.Two? && Coherent(m) && p < 256 && n < 32
    ensures EntryOk(Unmarked(m, p), n)
  {
    assert EntryOk(m, n) && EntryOk(m, p / 8);
    var entry := AndNot(m.table[p / 8], Mask(p % 8));
    ClearBit(m.group, p / 8, n);
    if n == p / 8 {
      forall j | 8 <= j < 32 ensures !Bit(entry, j) { ClearBit(m.table[n], p % 8, j); }
      if entry != 0 {
        FfsFinds(entry);
        ClearBit(m.table[n], p % 8, Ffs(entry) - 1);
        NotZero(m.table[n], Ffs(entry) - 1);
      }
    }
  }

  /** Unmarking clears one priority, and keeps the levels together. */
  lemma UnmarkedIs(m: Bits, p: nat, q: nat)
    requires Coherent(m) && p < Levels(m) && q < Levels(m)
    ensures Coherent(Unmarked(m, p)) && (Has(Unmarked(m, p), q) <==> p != q && Has(m, q))
  {
    if m.One? {
      ClearBit(m.group, p, q);
    } else {
      forall n | 0 <= n < 32 ensures EntryOk(Unmarked(m, p), n) { UnmarkedEntry(m, p, n); }
      if p / 8 == q / 8 { ClearBit(m.table[p / 8], p % 8, q % 8); }
    }
  }

  /** `Highest` is the least marked priority, and -1 just when none is marked, which is when the group is zero. */
  lemma HighestIs(m: Bits)
    requires Coherent(m)
    ensures Highest(m) == -1 <==> m.group == 0
    ensures Highest(m) == -1 <==> forall q :: 0 <= q < Levels(m) ==> !Has(m, q)
    ensures Highest(m) != -1 ==> 0 <= Highest(m) < Levels(m) && Has(m, Highest(m))
    ensures Highest(m) != -1 ==> forall q :: 0 <= q < Highest(m) ==> !Has(m, q)
  {
    FfsFinds(m.group);
    if m.group == 0 {
      forall q | 0 <= q < Levels(m) ensures !Has(m, q) { NoneMarked(m, q); }
    } else if m.Two? {
      HighestTwo(m);
      assert Has(m, Highest(m));
    } else {
      assert Has(m, Highest(m));
    }
  }

  lemma HighestTwo(m: Bits)
    requires Coherent(m) && m.Two? && m.group != 0
    ensures 0 <= Highest(m) < 256 && Has(m, Highest(m)) && forall q :: 0 <= q < Highest(m) ==> !Has(m, q)
  {
    FfsFinds(m.group);
    var n := Ffs(m.group) - 1;
    assert EntryOk(m, n);
    FfsFinds(m.table[n]);
    var j := Ffs(m.table[n]) - 1;
    assert Bit(m.table[n], j);
    assert j < 8;
    var h := n * 8 + j;
    assert h / 8 == n && h % 8 == j;
    forall q | 0 <= q < h ensures !Has(m, q) {
      if q / 8 < n { EntryUnmarked(m, q); }
    }
  }

  lemma NoneMarked(m: Bits, q: nat)
    requires Coherent(m) && m.group == 0 && q < Levels(m)
    ensures !Has(m, q)
  {
    if m.One? {
      if Bit(m.group, q) { NotZero(m.group, q); }
    } else {
      if Bit(m.group, q / 8) { NotZero(m.group, q / 8); }
      EntryUnmarked(m, q);
    }
  }

  lemma EntryUnmarked(m: Bits, q: nat)
    requires Coherent(m) && m.Two? && q < 256 && !Bit(m.group, q / 8)
    ensures !Has(m, q)
  {
    assert EntryOk(m, q / 8);
    if Bit(m.table[q / 8], q % 8) { NotZero(m.table[q / 8], q % 8); }
  }
}
